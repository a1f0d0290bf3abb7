/**
 * Signers bound to one Android Keystore alias. Every access to the alias happens under its process-wide
 * lock, but an operation reads the identity of the key in one keystore call and uses whatever key is there
 * in a later one; any call may fail, with or without effect. Any number of operations are in progress, and
 * the key may disappear for outside reasons between any two calls. Fresh keys never repeat an identity.
 */
module InstallationKeys {
  import opened Prelude

  datatype Key = Key(identity: nat, software: bool)

  /** A signer object: the identity it was created with, and whether it was reset. */
  datatype Signer = Signer(bound: nat, invalidated: bool)

  /** What happened at the keystore, in order. */
  datatype Fact =
    | Signed(signer: nat, identity: nat)
    | ResetBegun(signer: nat)
    | DeletedByReset(signer: nat, identity: nat)
    | DeletedByDestroy(expected: nat, identity: nat)
    | DeletedByPolicy(seen: nat, identity: nat, software: bool)
    | Overwritten(identity: nat)
    | Lost

  datatype Op =
    | Signing(signer: nat)
    | Resetting(signer: nat, coordinated: bool)
    | Destroying(expected: nat)
    | Creating(strongBox: bool, allowSoftware: bool)

  datatype Pc =
    | Queued
    | Wanting
    | Holding
    | Reading
    | Observed(found: Option<nat>)
    | Generating(attempts: nat)
    | Generated
    | Inspecting(seen: nat)
    | Rejecting(seen: nat)
    | Settling(ok: bool)
    | Done(ok: bool)

  datatype Proc = Proc(op: Op, pc: Pc)

  /**
   * The keystore entry, the signers there are, the holder of the alias lock, and the retirement records:
   * the holder of the reset mutex of an identity, and the identities whose reset is complete.
   */
  datatype Shared = Shared(
    entry: Option<Key>,
    nextIdentity: nat,
    signers: seq<Signer>,
    alias: Option<nat>,
    mutexes: map<nat, nat>,
    completed: set<nat>,
    resets: multiset<nat>,
    facts: seq<Fact>
  )

  datatype State = State(shared: Shared, procs: seq<Proc>)

  const START := State(Shared(None, 0, [], None, map[], {}, multiset{}, []), [])

  /** How a keystore call ends; `provider` is the kind of failure, `software` the backing of a new key. */
  datatype Choice = Choice(ok: bool, applied: bool, provider: bool, software: bool)

  datatype Action = Begin(op: Op) | Advance(p: nat, choice: Choice) | Lose

  /** What one call of an operation leaves behind. */
  datatype Step = Blocked | Step(shared: Shared, pc: Pc)

  predicate Applies(ch: Choice) {
    ch.ok || ch.applied
  }

  function IdentityOf(entry: Option<Key>): Option<nat> {
    if entry.Some? then Some(entry.value.identity) else None
  }

  predicate Coordinated(op: Op) {
    op.Resetting? && op.coordinated
  }

  predicate OpOk(sh: Shared, op: Op) {
    op.Signing? || op.Resetting? ==> op.signer < |sh.signers|
  }

  function Note(sh: Shared, f: Fact): Shared {
    sh.(facts := sh.facts + [f])
  }

  /** Releases the alias lock; a coordinated reset then settles under its mutex. */
  function Leave(sh: Shared, op: Op, ok: bool): Step {
    Step(sh.(alias := None), if Coordinated(op) then Settling(ok) else Done(ok))
  }

  function Invalidate(sh: Shared, k: nat): Shared
    requires k < |sh.signers|
  {
    Note(sh.(signers := sh.signers[k := sh.signers[k].(invalidated := true)]), ResetBegun(k))
  }

  /** Deletes whatever key is there. */
  function Delete(sh: Shared, ch: Choice, fact: Key -> Fact): Shared {
    if sh.entry.Some? && Applies(ch) then Note(sh.(entry := None), fact(sh.entry.value)) else sh
  }

  /** Puts a new key where one may already be. */
  function Generate(sh: Shared, software: bool): Shared {
    var made := sh.(entry := Some(Key(sh.nextIdentity, software)), nextIdentity := sh.nextIdentity + 1);
    if sh.entry.Some? then Note(made, Overwritten(sh.entry.value.identity)) else made
  }

  /** The locks: a coordinated reset takes the mutex of its identity before the alias lock. */
  function MoveLocks(sh: Shared, p: nat, op: Op, pc: Pc, ch: Choice): Step
    requires OpOk(sh, op)
  {
    match pc
    case Queued =>
      if !op.Resetting? || sh.signers[op.signer].bound in sh.mutexes then Blocked
      else if sh.signers[op.signer].bound in sh.completed then Step(sh, Done(true))
      else Step(sh.(mutexes := sh.mutexes[sh.signers[op.signer].bound := p]), Wanting)
    case Wanting =>
      if !ch.ok && !Coordinated(op) then Step(sh, Done(false))
      else if sh.alias.Some? then Blocked
      else Step(sh.(alias := Some(p)), Holding)
    case Settling(ok) =>
      if !op.Resetting? then Blocked
      else
        var identity := sh.signers[op.signer].bound;
        var released := sh.(mutexes := sh.mutexes - {identity});
        Step(if ok then released.(completed := sh.completed + {identity}, resets := sh.resets + multiset{identity})
             else released, Done(ok))
    case _ => Blocked
  }

  /** The identity was read in an earlier call; now the operation acts on whatever key is there. */
  function MoveAct(sh: Shared, op: Op, found: Option<nat>, ch: Choice): Step
    requires OpOk(sh, op)
  {
    match op
    case Signing(k) =>
      if found != Some(sh.signers[k].bound) || sh.entry.None? || !ch.ok then Leave(sh, op, false)
      else Leave(Note(sh, Signed(k, sh.entry.value.identity)), op, true)
    case Resetting(k, _) =>
      if found != Some(sh.signers[k].bound) then Leave(sh, op, true)
      else Leave(Delete(sh, ch, (key: Key) => DeletedByReset(k, key.identity)), op, ch.ok)
    case Destroying(expected) =>
      if found != Some(expected) then Leave(sh, op, true)
      else Leave(Delete(sh, ch, (key: Key) => DeletedByDestroy(expected, key.identity)), op, ch.ok)
    case Creating(strongBox, _) =>
      Step(sh, if found.Some? then Inspecting(found.value) else Generating(if strongBox then 2 else 1))
  }

  /** The later keystore calls of a creation; only a StrongBox attempt is followed by another. */
  function MoveCreate(sh: Shared, op: Op, pc: Pc, ch: Choice): Step
    requires op.Creating?
  {
    match pc
    case Generating(attempts) =>
      var made := if Applies(ch) then Generate(sh, ch.software) else sh;
      if ch.ok then Step(made, Generated)
      else if ch.provider && attempts == 2 then Step(made, Generating(1))
      else Leave(made, op, false)
    case Generated =>
      if !ch.ok || sh.entry.None? then Leave(sh, op, false) else Step(sh, Inspecting(sh.entry.value.identity))
    case Inspecting(seen) =>
      if !ch.ok || sh.entry.None? then Leave(sh, op, false)
      else if sh.entry.value.software && !op.allowSoftware then Step(sh, Rejecting(seen))
      else Leave(sh.(signers := sh.signers + [Signer(seen, false)]), op, true)
    case Rejecting(seen) =>
      Leave(Delete(sh, ch, (key: Key) => DeletedByPolicy(seen, key.identity, key.software)), op, false)
    case _ => Blocked
  }

  /** The next call of an operation, unless it is finished or waits for a lock. */
  function Move(sh: Shared, p: nat, proc: Proc, ch: Choice): Step
    requires OpOk(sh, proc.op)
  {
    var op := proc.op;
    match proc.pc
    case Holding =>
      if op.Signing? && sh.signers[op.signer].invalidated then Leave(sh, op, false)
      else Step(if op.Resetting? then Invalidate(sh, op.signer) else sh, Reading)
    case Reading => if ch.ok then Step(sh, Observed(IdentityOf(sh.entry))) else Leave(sh, op, false)
    case Observed(found) => MoveAct(sh, op, found, ch)
    case Generating(_) => if op.Creating? then MoveCreate(sh, op, proc.pc, ch) else Blocked
    case Generated => if op.Creating? then MoveCreate(sh, op, proc.pc, ch) else Blocked
    case Inspecting(_) => if op.Creating? then MoveCreate(sh, op, proc.pc, ch) else Blocked
    case Rejecting(_) => if op.Creating? then MoveCreate(sh, op, proc.pc, ch) else Blocked
    case _ => MoveLocks(sh, p, op, proc.pc, ch)
  }

  function Apply(s: State, a: Action): Option<State> {
    match a
    case Begin(op) =>
      if OpOk(s.shared, op)
      then Some(State(s.shared, s.procs + [Proc(op, if Coordinated(op) then Queued else Wanting)])) else None
    case Advance(p, ch) =>
      if p >= |s.procs| || !OpOk(s.shared, s.procs[p].op) then None
      else
        var step := Move(s.shared, p, s.procs[p], ch);
        if step.Blocked? then None else Some(State(step.shared, s.procs[p := s.procs[p].(pc := step.pc)]))
    case Lose => Some(State(Note(s.shared.(entry := None), Lost), s.procs))
  }

  ghost predicate Next(s: State, s': State) {
    exists a :: Apply(s, a) == Some(s')
  }

  ghost predicate Run(run: seq<State>) {
    |run| > 0 && run[0] == START && forall i :: 0 <= i < |run| - 1 ==> Next(run[i], run[i + 1])
  }

  predicate Current(sh: Shared, k: nat)
    requires k < |sh.signers|
  {
    !sh.signers[k].invalidated && IdentityOf(sh.entry) == Some(sh.signers[k].bound)
  }

  // ---------- Locks ----------

  /** The points at which an operation has the alias lock. */
  predicate HasAlias(pc: Pc) {
    pc.Holding? || pc.Reading? || pc.Observed? || pc.Generating? || pc.Generated? || pc.Inspecting? || pc.Rejecting?
  }

  /** The points at which a coordinated reset has the mutex of its identity. */
  predicate HasMutex(proc: Proc) {
    Coordinated(proc.op) && !proc.pc.Queued? && !proc.pc.Done?
  }

  /** An operation is at a point of its own kind and has exactly the locks of that point. */
  predicate LockLocal(sh: Shared, p: nat, proc: Proc) {
    && OpOk(sh, proc.op)
    && (proc.pc.Queued? || proc.pc.Settling? ==> Coordinated(proc.op))
    && (proc.pc.Generating? || proc.pc.Generated? || proc.pc.Inspecting? || proc.pc.Rejecting? ==> proc.op.Creating?)
    && (HasAlias(proc.pc) <==> sh.alias == Some(p))
    && (Coordinated(proc.op) ==>
          var id := sh.signers[proc.op.signer].bound;
          && (HasMutex(proc) <==> id in sh.mutexes && sh.mutexes[id] == p)
          && (HasMutex(proc) ==> id !in sh.completed))
  }

  /** What a step of `p` may change, and what it leaves to the others. */
  predicate Frame(sh: Shared, p: nat, proc: Proc, sh': Shared) {
    && (sh'.alias == sh.alias || (sh.alias.None? && sh'.alias == Some(p)) || (sh.alias == Some(p) && sh'.alias.None?))
    && (sh.alias != Some(p) ==>
          && sh'.entry == sh.entry && sh'.nextIdentity == sh.nextIdentity
          && sh'.signers == sh.signers && sh'.facts == sh.facts)
    && Grows(sh, sh') && EntryMoves(sh, sh')
    && (|| (sh'.mutexes == sh.mutexes && sh'.completed == sh.completed && sh'.resets == sh.resets)
        || (&& Coordinated(proc.op) && proc.op.signer < |sh.signers|
            && MutexMoves(sh, p, proc.pc, sh.signers[proc.op.signer].bound, sh')))
  }

  /** A coordinated reset takes the mutex of its identity, or releases it and perhaps records success. */
  predicate MutexMoves(sh: Shared, p: nat, pc: Pc, id: nat, sh': Shared) {
    || (&& pc.Queued? && id !in sh.mutexes && id !in sh.completed && sh'.mutexes == sh.mutexes[id := p]
        && sh'.completed == sh.completed && sh'.resets == sh.resets)
    || (&& pc.Settling? && sh'.mutexes == sh.mutexes - {id}
        && (|| (sh'.completed == sh.completed && sh'.resets == sh.resets)
            || (sh'.completed == sh.completed + {id} && sh'.resets == sh.resets + multiset{id})))
  }

  /** Signers stay, keep their identity and stay reset; facts and completed resets stay. */
  predicate Grows(sh: Shared, sh': Shared) {
    && |sh.signers| <= |sh'.signers| && sh.facts <= sh'.facts && sh.nextIdentity <= sh'.nextIdentity
    && sh.completed <= sh'.completed
    && (forall k :: 0 <= k < |sh.signers| ==>
          sh'.signers[k].bound == sh.signers[k].bound && (sh.signers[k].invalidated ==> sh'.signers[k].invalidated))
  }

  /** The entry can only change to nothing or to an identity that is new. */
  predicate EntryMoves(sh: Shared, sh': Shared) {
    sh'.entry == sh.entry || sh'.entry.None? || sh'.entry.value.identity >= sh.nextIdentity
  }

  predicate StepFrame(sh: Shared, p: nat, proc: Proc, step: Step) {
    step.Step? ==> Frame(sh, p, proc, step.shared) && LockLocal(step.shared, p, proc.(pc := step.pc))
  }

  lemma ActFrame(sh: Shared, p: nat, proc: Proc, ch: Choice)
    requires LockLocal(sh, p, proc) && proc.pc.Observed?
    ensures StepFrame(sh, p, proc, MoveAct(sh, proc.op, proc.pc.found, ch))
  {
    hide MutexMoves;
  }

  lemma CreateFrame(sh: Shared, p: nat, proc: Proc, ch: Choice)
    requires LockLocal(sh, p, proc) && proc.op.Creating?
    ensures StepFrame(sh, p, proc, MoveCreate(sh, proc.op, proc.pc, ch))
  {
    hide MutexMoves;
  }

  lemma LocksFrame(sh: Shared, p: nat, proc: Proc, ch: Choice)
    requires LockLocal(sh, p, proc)
    ensures StepFrame(sh, p, proc, MoveLocks(sh, p, proc.op, proc.pc, ch))
  {
  }

  lemma MoveFrame(sh: Shared, p: nat, proc: Proc, ch: Choice)
    requires LockLocal(sh, p, proc)
    ensures StepFrame(sh, p, proc, Move(sh, p, proc, ch))
  {
    hide MoveAct, MoveCreate, MoveLocks;
    LocksFrame(sh, p, proc, ch);
    if proc.op.Creating? {
      CreateFrame(sh, p, proc, ch);
    }
    if proc.pc.Observed? {
      ActFrame(sh, p, proc, ch);
    }
  }

  /** The holders named by the locks exist. */
  predicate HoldersExist(s: State) {
    && (s.shared.alias.Some? ==> s.shared.alias.value < |s.procs|)
    && (forall id <- s.shared.mutexes ::
          && s.shared.mutexes[id] < |s.procs| && Coordinated(s.procs[s.shared.mutexes[id]].op)
          && var k := s.procs[s.shared.mutexes[id]].op.signer;
             k < |s.shared.signers| && s.shared.signers[k].bound == id)
  }

  predicate LockInv(s: State) {
    HoldersExist(s) && forall p :: 0 <= p < |s.procs| ==> LockLocal(s.shared, p, s.procs[p])
  }

  lemma LockStable(sh: Shared, p: nat, proc: Proc, sh': Shared, q: nat, other: Proc)
    requires p != q && LockLocal(sh, p, proc) && LockLocal(sh, q, other) && Frame(sh, p, proc, sh')
    ensures LockLocal(sh', q, other)
  {
  }

  lemma HoldersNext(s: State, a: Action)
    requires LockInv(s) && Apply(s, a).Some?
    ensures HoldersExist(Apply(s, a).value)
  {
    hide Move, EntryMoves;
    if a.Advance? {
      MoveFrame(s.shared, a.p, s.procs[a.p], a.choice);
    }
  }

  lemma LockNext(s: State, a: Action)
    requires LockInv(s) && Apply(s, a).Some?
    ensures LockInv(Apply(s, a).value)
  {
    hide Move, HoldersExist, Frame, LockLocal;
    HoldersNext(s, a);
    var s' := Apply(s, a).value;
    if a.Advance? {
      MoveFrame(s.shared, a.p, s.procs[a.p], a.choice);
      forall q | 0 <= q < |s'.procs| ensures LockLocal(s'.shared, q, s'.procs[q]) {
        if q != a.p {
          LockStable(s.shared, a.p, s.procs[a.p], s'.shared, q, s.procs[q]);
        }
      }
    } else if a.Begin? {
      BeginLock(s, a.op);
    } else {
      LoseLock(s);
    }
  }

  lemma BeginLock(s: State, op: Op)
    requires LockInv(s) && OpOk(s.shared, op)
    ensures LockLocal(s.shared, |s.procs|, Proc(op, if Coordinated(op) then Queued else Wanting))
  {
  }

  lemma LoseLock(s: State)
    requires LockInv(s)
    ensures forall q :: 0 <= q < |s.procs| ==> LockLocal(Note(s.shared.(entry := None), Lost), q, s.procs[q])
  {
    forall q | 0 <= q < |s.procs| ensures LockLocal(Note(s.shared.(entry := None), Lost), q, s.procs[q]) {
      assert LockLocal(s.shared, q, s.procs[q]);
    }
  }

  // ---------- What the holder of the alias lock may rely on ----------

  predicate Unbound(sh: Shared, identity: nat) {
    forall k :: 0 <= k < |sh.signers| ==> sh.signers[k].bound != identity
  }

  /** What an operation saw is still so, unless the key is gone altogether. */
  predicate SeenOk(sh: Shared, proc: Proc) {
    && OpOk(sh, proc.op)
    && (proc.op.Signing? && (proc.pc.Reading? || proc.pc.Observed?) ==> !sh.signers[proc.op.signer].invalidated)
    && (proc.op.Resetting? && (proc.pc.Reading? || proc.pc.Observed?) ==> sh.signers[proc.op.signer].invalidated)
    && (proc.pc.Rejecting? ==> proc.op.Creating? && !proc.op.allowSoftware)
    && (sh.entry.Some? ==>
          && (proc.pc.Observed? ==> proc.pc.found == Some(sh.entry.value.identity))
          && (proc.pc.Generating? || proc.pc.Generated? ==> Unbound(sh, sh.entry.value.identity))
          && (proc.pc.Inspecting? ==> sh.entry.value.identity == proc.pc.seen)
          && (proc.pc.Rejecting? ==> sh.entry.value.identity == proc.pc.seen && sh.entry.value.software))
  }

  /** A fact that the rules of the keystore allow. */
  predicate FactOk(sh: Shared, f: Fact) {
    match f
    case Signed(k, identity) => k < |sh.signers| && identity == sh.signers[k].bound
    case ResetBegun(k) => k < |sh.signers| && sh.signers[k].invalidated
    case DeletedByReset(k, identity) => k < |sh.signers| && identity == sh.signers[k].bound
    case DeletedByDestroy(expected, identity) => identity == expected
    case DeletedByPolicy(seen, identity, software) => identity == seen && software
    case Overwritten(identity) =>
      identity < sh.nextIdentity && Unbound(sh, identity) && IdentityOf(sh.entry) != Some(identity)
    case Lost => true
  }

  predicate FactsOk(sh: Shared) {
    forall i :: 0 <= i < |sh.facts| ==> FactOk(sh, sh.facts[i])
  }

  /** Identities in use were generated before. */
  predicate Bounded(sh: Shared) {
    && (sh.entry.Some? ==> sh.entry.value.identity < sh.nextIdentity)
    && (forall k :: 0 <= k < |sh.signers| ==> sh.signers[k].bound < sh.nextIdentity)
  }

  /** The key of a completed reset is gone, and so is that of a reset about to be recorded. */
  predicate GoneOk(sh: Shared) {
    forall id <- sh.completed :: id < sh.nextIdentity && IdentityOf(sh.entry) != Some(id)
  }

  predicate SettledOk(sh: Shared, proc: Proc) {
    proc.pc == Settling(true) && proc.op.Resetting? ==>
      && proc.op.signer < |sh.signers| && sh.signers[proc.op.signer].bound < sh.nextIdentity
      && IdentityOf(sh.entry) != Some(sh.signers[proc.op.signer].bound)
  }

  ghost predicate CountsOk(sh: Shared) {
    forall id: nat :: sh.resets[id] == if id in sh.completed then 1 else 0
  }

  ghost predicate Inv(s: State) {
    && LockInv(s) && Bounded(s.shared) && CountsOk(s.shared) && FactsOk(s.shared) && GoneOk(s.shared)
    && forall p :: 0 <= p < |s.procs| ==> SeenOk(s.shared, s.procs[p]) && SettledOk(s.shared, s.procs[p])
  }

  // ---------- Every step keeps it ----------

  predicate StepSeen(proc: Proc, step: Step) {
    step.Step? ==> SeenOk(step.shared, proc.(pc := step.pc)) && Bounded(step.shared)
  }

  lemma CreateSeen(sh: Shared, proc: Proc, ch: Choice)
    requires Bounded(sh) && SeenOk(sh, proc) && proc.op.Creating?
    ensures StepSeen(proc, MoveCreate(sh, proc.op, proc.pc, ch))
  {
  }

  lemma ActSeen(sh: Shared, proc: Proc, ch: Choice)
    requires Bounded(sh) && SeenOk(sh, proc) && proc.pc.Observed?
    ensures StepSeen(proc, MoveAct(sh, proc.op, proc.pc.found, ch))
  {
  }

  lemma MoveSeen(sh: Shared, p: nat, proc: Proc, ch: Choice)
    requires LockLocal(sh, p, proc) && Bounded(sh) && SeenOk(sh, proc)
    ensures StepSeen(proc, Move(sh, p, proc, ch))
  {
    hide MoveAct, MoveCreate;
    if proc.op.Creating? {
      CreateSeen(sh, proc, ch);
    }
    if proc.pc.Observed? {
      ActSeen(sh, proc, ch);
    }
  }

  /** Whoever is not at the alias lock sees nothing change that it relies on. */
  lemma SeenStable(sh: Shared, p: nat, proc: Proc, sh': Shared, q: nat, other: Proc)
    requires p != q && LockLocal(sh, p, proc) && LockLocal(sh, q, other) && Frame(sh, p, proc, sh')
    requires SeenOk(sh, other)
    ensures SeenOk(sh', other)
  {
  }

  /** A fact stays allowed: overwritten identities stay out of use, because new signers get the entry's. */
  lemma FactStable(sh: Shared, p: nat, proc: Proc, ch: Choice, f: Fact)
    requires LockLocal(sh, p, proc) && SeenOk(sh, proc) && FactOk(sh, f)
    ensures var step := Move(sh, p, proc, ch); step.Step? ==> FactOk(step.shared, f)
  {
  }

  /** A step adds at most one fact, and it obeys the rules. */
  predicate StepFacts(sh: Shared, step: Step) {
    step.Step? ==>
      || step.shared.facts == sh.facts
      || (&& |step.shared.facts| == |sh.facts| + 1 && sh.facts <= step.shared.facts
          && FactOk(step.shared, step.shared.facts[|sh.facts|]))
  }

  lemma CreateFacts(sh: Shared, proc: Proc, ch: Choice)
    requires Bounded(sh) && SeenOk(sh, proc) && proc.op.Creating?
    ensures StepFacts(sh, MoveCreate(sh, proc.op, proc.pc, ch))
  {
  }

  lemma ActFacts(sh: Shared, proc: Proc, ch: Choice)
    requires SeenOk(sh, proc) && proc.pc.Observed?
    ensures StepFacts(sh, MoveAct(sh, proc.op, proc.pc.found, ch))
  {
  }

  lemma MoveFacts(sh: Shared, p: nat, proc: Proc, ch: Choice)
    requires LockLocal(sh, p, proc) && Bounded(sh) && SeenOk(sh, proc)
    ensures StepFacts(sh, Move(sh, p, proc, ch))
  {
    hide MoveAct, MoveCreate;
    if proc.op.Creating? {
      CreateFacts(sh, proc, ch);
    }
    if proc.pc.Observed? {
      ActFacts(sh, proc, ch);
    }
  }

  lemma FactsNext(s: State, a: Action)
    requires Inv(s) && Apply(s, a).Some?
    ensures FactsOk(Apply(s, a).value.shared)
  {
    hide Move, LockLocal, SeenOk, FactOk, Bounded, CountsOk, HoldersExist;
    var sh, sh' := s.shared, Apply(s, a).value.shared;
    if a.Advance? {
      MoveFacts(sh, a.p, s.procs[a.p], a.choice);
      forall i | 0 <= i < |sh'.facts| ensures FactOk(sh', sh'.facts[i]) {
        if i < |sh.facts| {
          assert sh'.facts[i] == sh.facts[i] by {
            MoveFrame(sh, a.p, s.procs[a.p], a.choice);
          }
          FactStable(sh, a.p, s.procs[a.p], a.choice, sh.facts[i]);
        }
      }
    } else if a.Lose? {
      LoseFacts(sh);
    }
  }

  lemma LoseFacts(sh: Shared)
    requires FactsOk(sh)
    ensures FactsOk(Note(sh.(entry := None), Lost))
  {
    var sh' := Note(sh.(entry := None), Lost);
    forall i | 0 <= i < |sh'.facts| ensures FactOk(sh', sh'.facts[i]) {
      assert i < |sh.facts| ==> FactOk(sh, sh.facts[i]);
    }
  }

  lemma SeenNext(s: State, a: Action)
    requires Inv(s) && Apply(s, a).Some?
    ensures var s' := Apply(s, a).value;
      Bounded(s'.shared) && forall q :: 0 <= q < |s'.procs| ==> SeenOk(s'.shared, s'.procs[q])
  {
    hide Move, FactOk, FactsOk, CountsOk, HoldersExist, Frame;
    var s' := Apply(s, a).value;
    if a.Advance? {
      MoveSeen(s.shared, a.p, s.procs[a.p], a.choice);
      MoveFrame(s.shared, a.p, s.procs[a.p], a.choice);
      forall q | 0 <= q < |s'.procs| ensures SeenOk(s'.shared, s'.procs[q]) {
        if q != a.p {
          SeenStable(s.shared, a.p, s.procs[a.p], s'.shared, q, s.procs[q]);
        }
      }
    } else if a.Lose? {
      forall q | 0 <= q < |s'.procs| ensures SeenOk(s'.shared, s'.procs[q]) {
        assert SeenOk(s.shared, s.procs[q]);
      }
    }
  }

  lemma CountsNext(s: State, a: Action)
    requires LockInv(s) && CountsOk(s.shared) && Apply(s, a).Some?
    ensures CountsOk(Apply(s, a).value.shared)
  {
    hide Move, HoldersExist, Grows, EntryMoves;
    if a.Advance? {
      MoveFrame(s.shared, a.p, s.procs[a.p], a.choice);
    }
  }

  predicate StepGone(proc: Proc, step: Step) {
    step.Step? ==> SettledOk(step.shared, proc.(pc := step.pc)) && GoneOk(step.shared)
  }

  lemma ActGone(sh: Shared, proc: Proc, ch: Choice)
    requires SeenOk(sh, proc) && Bounded(sh) && GoneOk(sh) && proc.pc.Observed?
    ensures StepGone(proc, MoveAct(sh, proc.op, proc.pc.found, ch))
  {
  }

  lemma CreateGone(sh: Shared, proc: Proc, ch: Choice)
    requires Bounded(sh) && GoneOk(sh) && proc.op.Creating?
    ensures StepGone(proc, MoveCreate(sh, proc.op, proc.pc, ch))
  {
  }

  lemma MoveGone(sh: Shared, p: nat, proc: Proc, ch: Choice)
    requires LockLocal(sh, p, proc) && SeenOk(sh, proc) && Bounded(sh) && GoneOk(sh) && SettledOk(sh, proc)
    ensures StepGone(proc, Move(sh, p, proc, ch))
  {
    hide MoveAct, MoveCreate;
    if proc.op.Creating? {
      CreateGone(sh, proc, ch);
    }
    if proc.pc.Observed? {
      ActGone(sh, proc, ch);
    }
  }

  lemma GoneNext(s: State, a: Action)
    requires Inv(s) && Apply(s, a).Some?
    ensures var s' := Apply(s, a).value;
      GoneOk(s'.shared) && forall q :: 0 <= q < |s'.procs| ==> SettledOk(s'.shared, s'.procs[q])
  {
    hide Move, FactOk, FactsOk, CountsOk, HoldersExist, LockLocal, SeenOk;
    var s' := Apply(s, a).value;
    if a.Advance? {
      MoveGone(s.shared, a.p, s.procs[a.p], a.choice);
      MoveFrame(s.shared, a.p, s.procs[a.p], a.choice);
    }
    forall q | 0 <= q < |s.procs| && !(a.Advance? && q == a.p) ensures SettledOk(s'.shared, s'.procs[q]) {
      assert SettledOk(s.shared, s.procs[q]);
    }
  }

  lemma InvNext(s: State, a: Action)
    requires Inv(s) && Apply(s, a).Some?
    ensures Inv(Apply(s, a).value)
  {
    hide Apply, LockInv, CountsOk, FactsOk, Bounded, SeenOk, SettledOk, GoneOk;
    GoneNext(s, a);
    LockNext(s, a);
    CountsNext(s, a);
    FactsNext(s, a);
    SeenNext(s, a);
  }

  lemma {:induction false} RunInv(run: seq<State>, k: nat)
    requires Run(run) && k < |run|
    ensures Inv(run[k])
  {
    hide Apply, Inv;
    if k > 0 {
      RunInv(run, k - 1);
      assert Next(run[k - 1], run[k]);
      var a :| Apply(run[k - 1], a) == Some(run[k]);
      InvNext(run[k - 1], a);
    } else {
      StartOk();
    }
  }

  lemma StartOk()
    ensures Inv(START)
  {
  }

  lemma NextGrows(s: State, s': State)
    requires LockInv(s) && Next(s, s')
    ensures Grows(s.shared, s'.shared) && EntryMoves(s.shared, s'.shared)
  {
    hide Move;
    var a :| Apply(s, a) == Some(s');
    if a.Advance? {
      MoveFrame(s.shared, a.p, s.procs[a.p], a.choice);
    }
  }

  lemma {:induction false} RunGrows(run: seq<State>, i: nat, j: nat)
    requires Run(run) && i <= j < |run|
    ensures Grows(run[i].shared, run[j].shared)
    decreases j
  {
    hide Next, LockInv;
    if i < j {
      RunGrows(run, i, j - 1);
      RunInv(run, j - 1);
      NextGrows(run[j - 1], run[j]);
    }
  }

  // ---------- The theorems ----------

  /** What an operation read is what it acts on: since the read, the key can only have been lost. */
  lemma ObservationHolds(run: seq<State>, i: nat, p: nat)
    requires Run(run) && i < |run| && p < |run[i].procs| && run[i].procs[p].pc.Observed?
    ensures run[i].shared.entry.None? || IdentityOf(run[i].shared.entry) == run[i].procs[p].pc.found
  {
    RunInv(run, i);
    assert SeenOk(run[i].shared, run[i].procs[p]);
  }

  /**
   * Whatever runs on the alias at the same time: a signer signs only with its own key, a reset or destroy
   * deletes only the key it is for, the policy deletes only software keys, and no signer's key is overwritten.
   */
  lemma OnlyOwnKeys(run: seq<State>, i: nat, k: nat)
    requires Run(run) && i < |run| && k < |run[i].shared.facts|
    ensures FactOk(run[i].shared, run[i].shared.facts[k])
  {
    RunInv(run, i);
  }

  /** No signature of a signer comes after its own reset has begun, even if that reset failed. */
  predicate NoneAfterReset(facts: seq<Fact>) {
    forall i, j :: 0 <= i < j < |facts| && facts[i].ResetBegun? && facts[j].Signed? ==> facts[i].signer != facts[j].signer
  }

  /** A new signature is by a signer that is not invalidated. */
  predicate SignsValid(sh: Shared, step: Step) {
    step.Step? && |step.shared.facts| > |sh.facts| && step.shared.facts[|sh.facts|].Signed? ==>
      var k := step.shared.facts[|sh.facts|].signer; k < |sh.signers| && !sh.signers[k].invalidated
  }

  lemma MoveSignsValid(sh: Shared, p: nat, proc: Proc, ch: Choice)
    requires LockLocal(sh, p, proc) && SeenOk(sh, proc)
    ensures SignsValid(sh, Move(sh, p, proc, ch))
  {
  }

  lemma NoneAfterResetNext(s: State, a: Action)
    requires Inv(s) && NoneAfterReset(s.shared.facts) && Apply(s, a).Some?
    ensures NoneAfterReset(Apply(s, a).value.shared.facts)
  {
    hide Move, LockLocal, SeenOk, Bounded, GoneOk, SettledOk, CountsOk, HoldersExist;
    var sh, sh' := s.shared, Apply(s, a).value.shared;
    if a.Advance? {
      MoveSignsValid(sh, a.p, s.procs[a.p], a.choice);
      MoveFacts(sh, a.p, s.procs[a.p], a.choice);
    }
    forall i, j | 0 <= i < j < |sh'.facts| && sh'.facts[i].ResetBegun? && sh'.facts[j].Signed?
      ensures sh'.facts[i].signer != sh'.facts[j].signer
    {
      assert sh'.facts[i] == sh.facts[i] && FactOk(sh, sh.facts[i]);
    }
  }

  lemma {:induction false} NeverSignsAfterReset(run: seq<State>, i: nat)
    requires Run(run) && i < |run|
    ensures NoneAfterReset(run[i].shared.facts)
  {
    hide Apply, Inv, NoneAfterReset;
    if i > 0 {
      NeverSignsAfterReset(run, i - 1);
      RunInv(run, i - 1);
      assert Next(run[i - 1], run[i]);
      var a :| Apply(run[i - 1], a) == Some(run[i]);
      NoneAfterResetNext(run[i - 1], a);
    } else {
      assert run[0].shared.facts == [];
      NothingYet();
    }
  }

  lemma NothingYet()
    ensures NoneAfterReset([])
  {
  }

  /** A signer that has lost its key once is stale for good: a key created later is never its own. */
  lemma {:induction false} StaleForGood(run: seq<State>, i: nat, j: nat, k: nat)
    requires Run(run) && i <= j < |run| && k < |run[i].shared.signers| && !Current(run[i].shared, k)
    ensures k < |run[j].shared.signers| && !Current(run[j].shared, k)
    decreases j
  {
    hide Next, FactsOk, LockInv, CountsOk, SeenOk, SettledOk, GoneOk;
    RunGrows(run, i, j);
    if i < j {
      StaleForGood(run, i, j - 1, k);
      RunInv(run, j - 1);
      NextGrows(run[j - 1], run[j]);
    }
  }

  /** At most one coordinated reset per identity succeeds, and after it the key is gone for good. */
  lemma OneResetSucceeds(run: seq<State>, i: nat, j: nat, identity: nat)
    requires Run(run) && i <= j < |run|
    ensures run[i].shared.resets[identity] <= 1
    ensures run[i].shared.resets[identity] == 1 ==> IdentityOf(run[j].shared.entry) != Some(identity)
  {
    RunInv(run, i);
    RunInv(run, j);
    RunGrows(run, i, j);
  }

  // ---------- What the end of an operation means ----------

  /** What an operation that ends normally has done in its last call or before. */
  predicate Achieved(sh: Shared, op: Op, sh': Shared)
    requires OpOk(sh, op)
  {
    match op
    case Signing(k) => sh'.facts == sh.facts + [Signed(k, sh.signers[k].bound)]
    case Resetting(k, coordinated) =>
      && IdentityOf(sh'.entry) != Some(sh.signers[k].bound)
      && if coordinated then sh.signers[k].bound in sh'.completed else sh.signers[k].invalidated
    case Destroying(expected) => IdentityOf(sh'.entry) != Some(expected)
    case Creating(_, allowSoftware) =>
      && sh.entry.Some? && (sh.entry.value.software ==> allowSoftware)
      && sh'.signers == sh.signers + [Signer(sh.entry.value.identity, false)]
  }

  /** Why an operation failed: a failing call, a signer or key that is gone, or a key the policy forbids. */
  predicate Excused(sh: Shared, proc: Proc, ch: Choice)
    requires OpOk(sh, proc.op)
  {
    || !ch.ok
    || match proc.op
       case Signing(k) => !Current(sh, k)
       case Resetting(_, coordinated) => coordinated && proc.pc == Settling(false)
       case Destroying(_) => false
       case Creating(_, allowSoftware) =>
         sh.entry.None? || (proc.pc.Rejecting? && sh.entry.value.software && !allowSoftware)
  }

  predicate EndsWell(sh: Shared, proc: Proc, ch: Choice, step: Step) {
    OpOk(sh, proc.op) && step.Step? && step.pc.Done? ==>
      if step.pc.ok then Achieved(sh, proc.op, step.shared) else Excused(sh, proc, ch)
  }

  lemma CreateEnds(sh: Shared, p: nat, proc: Proc, ch: Choice)
    requires LockLocal(sh, p, proc) && SeenOk(sh, proc) && proc.op.Creating?
    ensures EndsWell(sh, proc, ch, MoveCreate(sh, proc.op, proc.pc, ch))
  {
  }

  lemma ActEnds(sh: Shared, p: nat, proc: Proc, ch: Choice)
    requires LockLocal(sh, p, proc) && SeenOk(sh, proc) && proc.pc.Observed?
    ensures EndsWell(sh, proc, ch, MoveAct(sh, proc.op, proc.pc.found, ch))
  {
  }

  lemma MoveEnds(sh: Shared, p: nat, proc: Proc, ch: Choice)
    requires LockLocal(sh, p, proc) && SeenOk(sh, proc) && SettledOk(sh, proc) && GoneOk(sh)
    ensures EndsWell(sh, proc, ch, Move(sh, p, proc, ch))
  {
    hide MoveAct, MoveCreate;
    if proc.op.Creating? {
      CreateEnds(sh, p, proc, ch);
    }
    if proc.pc.Observed? {
      ActEnds(sh, p, proc, ch);
    }
  }

  /**
   * An operation that ends normally has signed with its own key, made a current signer for a key the policy
   * allows, or left the alias without the key it is to remove; one that fails has a reason.
   */
  lemma OutcomeMeans(run: seq<State>, i: nat, p: nat, ch: Choice)
    requires Run(run) && i + 1 < |run| && p < |run[i].procs| && Apply(run[i], Advance(p, ch)) == Some(run[i + 1])
    requires run[i + 1].procs[p].pc.Done?
    ensures OpOk(run[i].shared, run[i].procs[p].op)
    ensures if run[i + 1].procs[p].pc.ok then Achieved(run[i].shared, run[i].procs[p].op, run[i + 1].shared)
            else Excused(run[i].shared, run[i].procs[p], ch)
  {
    hide Move, SeenOk, SettledOk, GoneOk, LockLocal, Achieved, Excused, Run;
    RunInv(run, i);
    MoveEnds(run[i].shared, p, run[i].procs[p], ch);
  }

  // ---------- A coordinated reset can always be completed ----------

  const FAIL := Choice(false, false, false, false)
  const OK := Choice(true, true, false, false)

  function Last(run: seq<State>): State
    requires |run| > 0
  {
    run[|run| - 1]
  }

  lemma Extend(run: seq<State>, a: Action)
    requires Run(run) && Apply(Last(run), a).Some?
    ensures Run(run + [Apply(Last(run), a).value])
  {
    hide Apply;
    var longer := run + [Apply(Last(run), a).value];
    forall i | 0 <= i < |longer| - 1 ensures Next(longer[i], longer[i + 1]) {
      if i < |run| - 1 {
        assert longer[i] == run[i] && longer[i + 1] == run[i + 1];
        assert Next(run[i], run[i + 1]);
      } else {
        assert longer[i] == Last(run);
      }
    }
  }

  /** How many calls an operation with the alias lock makes at most before it releases it, if they all fail. */
  function Rank(pc: Pc): nat {
    match pc
    case Wanting => 6
    case Holding => 5
    case Reading => 4
    case Observed(_) => 3
    case Generated => 2
    case Generating(_) => 2
    case Inspecting(_) => 2
    case _ => 1
  }

  /** A holder of the alias lock whose call fails releases the lock or comes closer to that. */
  lemma HolderMovesOn(sh: Shared, p: nat, proc: Proc)
    requires LockLocal(sh, p, proc) && HasAlias(proc.pc)
    ensures var step := Move(sh, p, proc, FAIL);
      && step.Step? && (step.shared.alias.None? || (step.shared.alias == Some(p) && Rank(step.pc) < Rank(proc.pc)))
  {
  }

  function HolderRank(s: State): nat {
    if s.shared.alias.Some? && s.shared.alias.value < |s.procs| then Rank(s.procs[s.shared.alias.value].pc) else 0
  }

  lemma {:induction false} DrainAlias(run: seq<State>) returns (longer: seq<State>)
    requires Run(run)
    ensures Run(longer) && run <= longer && Last(longer).shared.alias.None?
    decreases HolderRank(Last(run))
  {
    hide Move, Next;
    longer := run;
    var s := Last(run);
    if s.shared.alias.Some? {
      RunInv(run, |run| - 1);
      var p := s.shared.alias.value;
      assert LockLocal(s.shared, p, s.procs[p]);
      HolderMovesOn(s.shared, p, s.procs[p]);
      Extend(run, Advance(p, FAIL));
      longer := DrainAlias(run + [Apply(s, Advance(p, FAIL)).value]);
    }
  }

  /** A coordinated reset on its way to success: nobody else has the alias lock. */
  predicate Finishing(sh: Shared, proc: Proc) {
    && Coordinated(proc.op)
    && ((proc.pc.Wanting? && sh.alias.None?) || proc.pc.Holding? || proc.pc.Reading? || proc.pc.Observed?
        || proc.pc == Settling(true))
  }

  lemma ResetMovesOn(sh: Shared, p: nat, proc: Proc)
    requires LockLocal(sh, p, proc) && Finishing(sh, proc)
    ensures var step := Move(sh, p, proc, OK);
      && step.Step?
      && (if proc.pc.Settling? then sh.signers[proc.op.signer].bound in step.shared.completed
          else Finishing(step.shared, proc.(pc := step.pc)) && Rank(step.pc) < Rank(proc.pc))
  {
  }

  lemma {:induction false} Finish(run: seq<State>, p: nat) returns (longer: seq<State>)
    requires Run(run) && p < |Last(run).procs| && OpOk(Last(run).shared, Last(run).procs[p].op)
    requires Finishing(Last(run).shared, Last(run).procs[p])
    ensures Run(longer) && run <= longer
    ensures Last(run).shared.signers[Last(run).procs[p].op.signer].bound in Last(longer).shared.completed
    decreases Rank(Last(run).procs[p].pc)
  {
    hide Move, Next, Finishing, Rank;
    var s := Last(run);
    RunInv(run, |run| - 1);
    assert LockLocal(s.shared, p, s.procs[p]);
    ResetMovesOn(s.shared, p, s.procs[p]);
    MoveFrame(s.shared, p, s.procs[p], OK);
    Extend(run, Advance(p, OK));
    longer := run + [Apply(s, Advance(p, OK)).value];
    if !s.procs[p].pc.Settling? {
      longer := Finish(longer, p);
    }
  }

  /** A new coordinated reset gets the free mutex of its identity and, with the alias free, goes through. */
  lemma FinishNew(run: seq<State>, k: nat) returns (longer: seq<State>)
    requires Run(run) && k < |Last(run).shared.signers| && Last(run).shared.alias.None?
    requires var id := Last(run).shared.signers[k].bound;
             id !in Last(run).shared.mutexes && id !in Last(run).shared.completed
    ensures Run(longer) && run <= longer
    ensures Last(run).shared.signers[k].bound in Last(longer).shared.completed
  {
    hide Next, MoveAct, MoveCreate;
    var s, n, op := Last(run), |Last(run).procs|, Resetting(k, true);
    var begun := State(s.shared, s.procs + [Proc(op, Queued)]);
    assert Apply(s, Begin(op)) == Some(begun);
    Extend(run, Begin(op));
    var run1 := run + [begun];
    var locked := s.shared.(mutexes := s.shared.mutexes[s.shared.signers[k].bound := n]);
    assert Move(begun.shared, n, begun.procs[n], OK) == Step(locked, Wanting);
    Extend(run1, Advance(n, OK));
    longer := run1 + [Apply(begun, Advance(n, OK)).value];
    longer := Finish(longer, n);
  }

  /** A reset that has failed releases the mutex of its identity. */
  lemma Settle(run: seq<State>, p: nat) returns (longer: seq<State>)
    requires Run(run) && p < |Last(run).procs| && OpOk(Last(run).shared, Last(run).procs[p].op)
    requires Last(run).procs[p].pc == Settling(false) && Coordinated(Last(run).procs[p].op)
    ensures Run(longer) && run <= longer
    ensures var sh, sh' := Last(run).shared, Last(longer).shared;
      && sh' == sh.(mutexes := sh'.mutexes) && sh.signers[Last(run).procs[p].op.signer].bound !in sh'.mutexes
  {
    hide Next, MoveAct, MoveCreate;
    Extend(run, Advance(p, OK));
    longer := run + [Apply(Last(run), Advance(p, OK)).value];
  }

  /**
   * Whatever has failed so far, from every point of every run some continuation completes the coordinated
   * reset of any signer's identity: each failed owner gives up the mutex, and the next one may try again.
   */
  lemma FailedResetIsRetryable(run: seq<State>, k: nat) returns (longer: seq<State>)
    requires Run(run) && k < |Last(run).shared.signers|
    ensures Run(longer) && run <= longer
    ensures Last(run).shared.signers[k].bound in Last(longer).shared.completed
  {
    hide Move, Next, Finishing, SeenOk, SettledOk, FactsOk, CountsOk, GoneOk, Bounded;
    longer := DrainAlias(run);
    RunGrows(longer, |run| - 1, |longer| - 1);
    RunInv(longer, |longer| - 1);
    var s, id := Last(longer), Last(run).shared.signers[k].bound;
    assert s.shared.signers[k].bound == id;
    if id in s.shared.mutexes {
      var p := s.shared.mutexes[id];
      assert LockLocal(s.shared, p, s.procs[p]);
      if s.procs[p].pc == Settling(false) {
        longer := Settle(longer, p);
        longer := FinishNew(longer, k);
      } else {
        OwnerIsFinishing(s.shared, p, s.procs[p]);
        longer := Finish(longer, p);
      }
    } else if id !in s.shared.completed {
      longer := FinishNew(longer, k);
    }
  }

  lemma OwnerIsFinishing(sh: Shared, p: nat, proc: Proc)
    requires LockLocal(sh, p, proc) && HasMutex(proc) && sh.alias.None? && proc.pc != Settling(false)
    ensures Finishing(sh, proc)
  {
  }

  // ---------- The objects ----------

  /** How a keystore call that changes something ends. */
  datatype Outcome = Works | FailsBefore | FailsAfter

  /** The alias in the keystore; only a faulty keystore fails. */
  class KeystoreAlias {
    const faulty: bool
    var entry: Option<Key>
    var nextIdentity: nat

    constructor (faulty: bool)
      ensures this.faulty == faulty && entry == None && nextIdentity == 0
    {
      this.faulty, entry, nextIdentity := faulty, None, 0;
    }

    function CurrentIdentity(): Option<nat>
      reads this
    {
      IdentityOf(entry)
    }

    /** How the next keystore call ends. */
    method Call() returns (outcome: Outcome)
      ensures !outcome.Works? ==> faulty
    {
      outcome := *;
      if !faulty {
        outcome := Works;
      }
    }

    /** The identity of the key that is there. */
    method ReadIdentity() returns (r: Result<Option<nat>>)
      ensures r.Ok? ==> r.value == CurrentIdentity()
      ensures r.Rejected? ==> faulty
    {
      var outcome := Call();
      return if outcome.Works? then Ok(CurrentIdentity()) else Rejected;
    }

    /** A new key under an identity that was never used, in the place of whatever is there. */
    method Generate(software: bool) returns (ok: bool)
      modifies this
      ensures ok ==> entry == Some(Key(old(nextIdentity), software)) && nextIdentity == old(nextIdentity) + 1
      ensures !ok ==>
        || (entry == old(entry) && nextIdentity == old(nextIdentity))
        || (entry == Some(Key(old(nextIdentity), software)) && nextIdentity == old(nextIdentity) + 1)
      ensures !ok ==> faulty
    {
      var outcome := Call();
      if !outcome.FailsBefore? {
        entry, nextIdentity := Some(Key(nextIdentity, software)), nextIdentity + 1;
      }
      ok := outcome.Works?;
    }

    method Delete() returns (ok: bool)
      modifies this`entry
      ensures entry == old(entry) || entry.None?
      ensures if ok then entry.None? else faulty
    {
      var outcome := Call();
      if !outcome.FailsBefore? {
        entry := None;
      }
      ok := outcome.Works?;
    }

    /** Deletes the alias only while it still holds the expected key; even the comparison may fail. */
    method Destroy(expected: nat) returns (ok: bool)
      modifies this`entry
      ensures entry == old(entry) || (entry.None? && old(CurrentIdentity()) == Some(expected))
      ensures if ok then CurrentIdentity() != Some(expected) else faulty
    {
      var found := ReadIdentity();
      if found.Rejected? {
        return false;
      }
      ok := true;
      if found.value == Some(expected) {
        ok := Delete();
      }
    }
  }

  class AliasBoundInstallationKey {
    const keystore: KeystoreAlias
    const expectedIdentity: nat
    var invalidated: bool

    constructor (keystore: KeystoreAlias, expectedIdentity: nat)
      ensures this.keystore == keystore && this.expectedIdentity == expectedIdentity && !invalidated
    {
      this.keystore, this.expectedIdentity, invalidated := keystore, expectedIdentity, false;
    }

    /** The identity that signs, or nothing. */
    method Sign() returns (signedWith: Option<nat>)
      ensures signedWith.Some? ==>
        !invalidated && signedWith == Some(expectedIdentity) && keystore.CurrentIdentity() == Some(expectedIdentity)
      ensures signedWith.None? ==>
        invalidated || keystore.CurrentIdentity() != Some(expectedIdentity) || keystore.faulty
    {
      if invalidated {
        return None;
      }
      var found := keystore.ReadIdentity();
      if found.Rejected? || found.value != Some(expectedIdentity) {
        return None;
      }
      var outcome := keystore.Call();
      return if outcome.Works? then keystore.CurrentIdentity() else None;
    }

    /** A failing comparison counts as not current. */
    method IsCurrent() returns (current: bool)
      ensures current ==> !invalidated && keystore.CurrentIdentity() == Some(expectedIdentity)
      ensures !current ==> invalidated || keystore.CurrentIdentity() != Some(expectedIdentity) || keystore.faulty
    {
      if invalidated {
        return false;
      }
      var found := keystore.ReadIdentity();
      return found == Ok(Some(expectedIdentity));
    }

    /** Invalidates this signer first, then deletes its own key and nothing else. */
    method Reset() returns (ok: bool)
      modifies this, keystore`entry
      ensures invalidated
      ensures || keystore.entry == old(keystore.entry)
              || (keystore.entry.None? && old(keystore.CurrentIdentity()) == Some(expectedIdentity))
      ensures if ok then keystore.CurrentIdentity() != Some(expectedIdentity) else keystore.faulty
    {
      invalidated := true;
      var found := keystore.ReadIdentity();
      if found.Rejected? {
        return false;
      }
      ok := true;
      if found.value == Some(expectedIdentity) {
        ok := keystore.Delete();
      }
    }
  }

  /**
   * Opens the key of the alias or generates one, in StrongBox if that is wanted and works. A software key
   * that the policy forbids is deleted, even if it was there before; nothing else keeps a working keystore
   * from yielding a signer.
   */
  method CreateSigner(keystore: KeystoreAlias, strongBox: bool, software: bool, allowSoftware: bool)
    returns (r: Option<AliasBoundInstallationKey>)
    modifies keystore
    ensures r.Some? ==>
      && fresh(r.value) && r.value.keystore == keystore && !r.value.invalidated
      && keystore.CurrentIdentity() == Some(r.value.expectedIdentity)
      && (keystore.entry.value.software ==> allowSoftware)
    ensures old(keystore.entry).Some? ==>
      || keystore.entry == old(keystore.entry)
      || (keystore.entry.None? && old(keystore.entry).value.software && !allowSoftware)
    ensures r.None? && !keystore.faulty ==>
      && keystore.entry.None? && !allowSoftware
      && (if old(keystore.entry).Some? then old(keystore.entry).value.software else software && !strongBox)
  {
    var existing := keystore.ReadIdentity();
    if existing.Rejected? {
      return None;
    }
    if existing.value.None? {
      var generated, provider: bool := false, *;
      if strongBox {
        generated := keystore.Generate(false);
      }
      if !generated && (!strongBox || provider) {
        generated := keystore.Generate(software);
      }
      if !generated {
        return None;
      }
    }
    var read := keystore.Call();
    if !read.Works? {
      return None;
    }
    if keystore.entry.value.software && !allowSoftware {
      var _ := keystore.Delete();
      return None;
    }
    var signer := new AliasBoundInstallationKey(keystore, keystore.entry.value.identity);
    return Some(signer);
  }
}
