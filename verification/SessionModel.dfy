/**
 * The session, retirement and lock protocol of the Android SDK as a transition system.
 *
 * Any number of root session coordinators and component coordinators share the retirement records of
 * the process, the per-key locks, and their session stores. One step is one region of code between two
 * lock boundaries or suspension points; the environment chooses every server answer, clock reading,
 * I/O failure and cancellation. The model covers one process lifetime: what a store holds initially
 * was persisted by an earlier process.
 *
 * Access token, refresh token and access-token fingerprint of one grant are represented by one fresh
 * number, its generation; a key stands for its thumbprint.
 */
module SessionModel {
  import opened Prelude

  type Key = nat
  type StoreId = nat

  datatype CoordinationKey = CoordinationKey(
    baseUrl: string, applicationId: string, environment: string,
    identityProvider: string, platform: string, signerIdentity: Key)

  /** A root coordinator. `resettable` says that its signer can destroy its key. */
  datatype Root = Root(coordination: CoordinationKey, store: StoreId, resettable: bool)

  /** A component coordinator and the root coordinator that revokes it. */
  datatype Component = Component(coordination: CoordinationKey, root: nat)

  /**
   * The clients of a process. A store in `bound` compares and clears in one critical section, and wipes
   * itself when a keystore or cipher call throws while it loads; `fragile` says where such calls may throw.
   */
  datatype Wiring = Wiring(
    roots: seq<Root>, components: seq<Component>, bound: set<StoreId>, fragile: set<StoreId>)

  function KeyOf(root: Root): Key {
    root.coordination.signerIdentity
  }

  datatype Snapshot = Snapshot(jkt: Key, generation: nat)

  /** Where a generation was granted: the store and the key of the coordinator that asked for it. */
  datatype Home = Home(store: StoreId, key: Key)

  function HomeOf(root: Root): Home {
    Home(root.store, KeyOf(root))
  }

  datatype Lock =
    | SessionLock(coordination: CoordinationKey)
    | StateLock(key: Key)
    | ResetLock(key: Key)
    | RevocationLock(root: nat)
    | ComponentLock(component: nat)

  datatype Job = Authorize | Force | Control(revokes: bool)

  /** Which snapshot a conditional clear may remove: any of a key, or one generation of it. */
  datatype Target = Target(key: Key, generation: Option<nat>)

  predicate Matches(snapshot: Snapshot, target: Target) {
    snapshot.jkt == target.key && (target.generation.Some? ==> target.generation.value == snapshot.generation)
  }

  datatype Stage = Wanting | Holding | Committing

  /** Why a conditional clear runs, which decides what follows it. */
  datatype Purpose = Foreign(force: bool) | Replace | EndSession | Undo | Cleanup | Caller

  datatype Pc =
    // A caller of the coordinator
    | Enter(job: Job)
    | Join(job: Job)
    | Await(job: Job, task: nat)
    | Recheck(job: Job, generation: nat)
    | Prove(job: Job, generation: nat, retried: bool)
    | Confirm(job: Job, generation: nat, retried: bool)
    | Exchange(job: Job, generation: nat, retried: bool)
    | Forget
    | Leave(task: nat)
    | Authorized(generation: nat)
    | Ended
    // Cleanup of a revoked installation
    | MarkRetired
    | MarkRevoked
    | CancelTask
    | WantRevocation
    | WantReset(cleared: bool)
    | Resetting(cleared: bool)
    | Finish(cleared: bool, reset: bool)
    // A conditional clear, in any of the three kinds of process
    | Clearing(stage: Stage, target: Target, purpose: Purpose)
    // The deferred task that loads, refreshes or establishes a session
    | TaskQueued(force: bool)
    | TaskLoading(force: bool)
    | TaskDeciding(force: bool, stored: Option<Snapshot>)
    | TaskRefreshing(current: Snapshot)
    | TaskEstablishing
    | TaskPersist(grant: Snapshot, prior: Option<nat>)
    | TaskSaving(grant: Snapshot, prior: Option<nat>)
    | TaskSaved(grant: Snapshot)
    | TaskDone(generation: nat)
    | TaskFailed(terminal: bool)
    // A component coordinator
    | ComponentQueued(component: nat)
    | ComponentWaiting(component: nat)
    | ComponentWorking(component: nat)
    | ComponentRefreshing(component: nat)
    | ComponentRevoking(component: nat)

  /**
   * One process: `outer` names the component whose session lock a revocation holds around its root call;
   * `stale` records that the key was already retired when the process began.
   */
  datatype Proc = Proc(root: nat, pc: Pc, outer: Option<nat>, stale: bool)

  /** The shared state; the last three fields only record history. */
  datatype Shared = Shared(
    retired: set<Key>,
    keyReset: set<Key>,
    revoked: set<nat>,
    cleaned: set<nat>,
    inFlight: map<nat, nat>,
    stores: map<StoreId, Snapshot>,
    issued: seq<Home>,
    cleared: set<(StoreId, Key)>,
    superseded: set<nat>,
    resets: multiset<Key>)

  datatype State = State(shared: Shared, procs: seq<Proc>)

  datatype Refusal = RootTerminal | EndsSession | NeedsNewSession | Other

  /** What the environment decides for one step. */
  datatype Choice =
    | Proceed
    | Fail(applied: bool)
    | Fresh | Renewable | Expired
    | Refuse(refusal: Refusal)
    | Nonce
    | KeyGone
    | CipherFault
    | Abort

  datatype Step =
    | Blocked
    | Step(acquire: Option<Lock>, shared: Shared, next: Proc, spawn: Option<Proc>)

  predicate Finished(pc: Pc) {
    pc.Ended? || pc.Authorized? || pc.TaskDone? || pc.TaskFailed?
  }

  predicate IsTask(pc: Pc) {
    || pc.TaskQueued? || pc.TaskLoading? || pc.TaskDeciding? || pc.TaskRefreshing? || pc.TaskEstablishing?
    || pc.TaskPersist? || pc.TaskSaving? || pc.TaskSaved? || pc.TaskDone? || pc.TaskFailed?
    || (pc.Clearing? && InTask(pc.purpose))
  }

  predicate InTask(purpose: Purpose) {
    purpose.Foreign? || purpose.Replace? || purpose.EndSession? || purpose.Undo?
  }

  predicate IsComponent(pc: Pc) {
    pc.ComponentQueued? || pc.ComponentWaiting? || pc.ComponentWorking? || pc.ComponentRefreshing? || pc.ComponentRevoking?
  }

  /** The regions run under NonCancellable, or without a suspension point. */
  predicate NonCancellable(pc: Pc) {
    || pc.MarkRetired? || pc.MarkRevoked? || pc.CancelTask? || pc.WantRevocation?
    || pc.WantReset? || pc.Resetting? || pc.Finish?
    || (pc.Clearing? && pc.purpose.Cleanup?)
  }

  /** The locks held at a program point, not counting an outer component session lock. */
  function PcLocks(w: Wiring, root: nat, pc: Pc): set<Lock>
    requires root < |w.roots|
  {
    var session := SessionLock(w.roots[root].coordination);
    var state := StateLock(KeyOf(w.roots[root]));
    match pc
    case TaskLoading(_) => {session}
    case TaskDeciding(_, _) => {session}
    case TaskRefreshing(_) => {session}
    case TaskEstablishing => {session}
    case TaskPersist(_, _) => {session}
    case TaskSaving(_, _) => {session, state}
    case TaskSaved(_) => {session, state}
    case WantReset(_) => {RevocationLock(root)}
    case Resetting(_) => {RevocationLock(root), ResetLock(KeyOf(w.roots[root]))}
    case Finish(_, _) => {RevocationLock(root)}
    case Clearing(stage, target, purpose) =>
      (if InTask(purpose) then {session} else if purpose.Cleanup? then {RevocationLock(root)} else {})
      + (if stage.Wanting? then {} else {StateLock(target.key)})
    case ComponentWaiting(i) => {ComponentLock(i)}
    case ComponentWorking(i) =>
      {ComponentLock(i)} + (if i < |w.components| then {SessionLock(w.components[i].coordination)} else {})
    case ComponentRefreshing(i) =>
      {ComponentLock(i)} + (if i < |w.components| then {SessionLock(w.components[i].coordination)} else {})
    case _ => {}
  }

  function OuterLocks(w: Wiring, proc: Proc): set<Lock> {
    if proc.outer.Some? && proc.outer.value < |w.components| && !Finished(proc.pc)
    then {SessionLock(w.components[proc.outer.value].coordination)}
    else {}
  }

  function Held(w: Wiring, proc: Proc): set<Lock>
    requires proc.root < |w.roots|
  {
    PcLocks(w, proc.root, proc.pc) + OuterLocks(w, proc)
  }

  predicate Flagged(w: Wiring, sh: Shared, root: nat)
    requires root < |w.roots|
  {
    root in sh.revoked || KeyOf(w.roots[root]) in sh.retired
  }

  /** What a conditional clear is followed by. */
  function After(purpose: Purpose, ok: bool): Pc {
    match purpose
    case Foreign(force) => if ok then TaskDeciding(force, None) else TaskFailed(false)
    case Replace => if ok then TaskEstablishing else TaskFailed(false)
    case EndSession => TaskFailed(false)
    case Undo => TaskFailed(false)
    case Cleanup => WantReset(ok)
    case Caller => Ended
  }

  /** A region that takes no lock. */
  function Go(sh: Shared, proc: Proc, pc: Pc): Step {
    Step(None, sh, proc.(pc := pc), None)
  }

  /** A region that starts by taking a lock, which is kept exactly as far as the next point holds it. */
  function Take(sh: Shared, proc: Proc, lock: Lock, pc: Pc): Step {
    Step(Some(lock), sh, proc.(pc := pc), None)
  }

  function RecordClear(w: Wiring, sh: Shared, root: nat, purpose: Purpose): Shared
    requires root < |w.roots|
  {
    if purpose.Cleanup?
    then sh.(cleared := sh.cleared + {(w.roots[root].store, KeyOf(w.roots[root]))})
    else sh
  }

  function EmptyStore(sh: Shared, store: StoreId): Shared {
    sh.(stores := sh.stores - {store})
  }

  /** A throwing keystore or cipher call can wipe what the store holds, whatever that is. */
  predicate Wipeable(w: Wiring, sh: Shared, store: StoreId) {
    store in w.bound && store in w.fragile && store in sh.stores
  }

  function MoveClearing(w: Wiring, sh: Shared, proc: Proc, ch: Choice): Step
    requires proc.root < |w.roots| && proc.pc.Clearing?
  {
    var target, purpose := proc.pc.target, proc.pc.purpose;
    var store := w.roots[proc.root].store;
    var matches := store in sh.stores && Matches(sh.stores[store], target);
    match proc.pc.stage
    case Wanting =>
      if ch.Proceed? then Take(sh, proc, StateLock(target.key), Clearing(Holding, target, purpose)) else Blocked
    case Holding =>
      if ch.Proceed? && matches && store !in w.bound then Go(sh, proc, Clearing(Committing, target, purpose))
      else if ch.Proceed? then
        var emptied := if matches then EmptyStore(sh, store) else sh;
        Go(RecordClear(w, emptied, proc.root, purpose), proc, After(purpose, true))
      else if ch.Fail? then
        var emptied := if ch.applied && matches && store in w.bound then EmptyStore(sh, store) else sh;
        Go(emptied, proc, After(purpose, false))
      else if ch.CipherFault? && Wipeable(w, sh, store) then Go(EmptyStore(sh, store), proc, After(purpose, false))
      else Blocked
    case Committing =>
      if ch.Proceed? then
        Go(RecordClear(w, EmptyStore(sh, store), proc.root, purpose), proc, After(purpose, true))
      else if ch.Fail? then
        Go(if ch.applied then EmptyStore(sh, store) else sh, proc, After(purpose, false))
      else Blocked
  }

  function MoveTask(w: Wiring, sh: Shared, proc: Proc, ch: Choice): Step
    requires proc.root < |w.roots|
  {
    var root := w.roots[proc.root];
    var key := KeyOf(root);
    match proc.pc
    case TaskQueued(force) =>
      if ch.Proceed? then
        Take(sh, proc, SessionLock(root.coordination),
             if Flagged(w, sh, proc.root) then TaskFailed(true) else TaskLoading(force))
      else Blocked
    case TaskLoading(force) =>
      if ch.Proceed? then
        if Flagged(w, sh, proc.root) then Go(sh, proc, TaskFailed(true))
        else if root.store !in sh.stores then Go(sh, proc, TaskDeciding(force, None))
        else if sh.stores[root.store].jkt == key then Go(sh, proc, TaskDeciding(force, Some(sh.stores[root.store])))
        else Go(sh, proc, Clearing(Wanting, Target(sh.stores[root.store].jkt, None), Foreign(force)))
      else if ch.Fail? then Go(sh, proc, TaskFailed(false))
      else if ch.CipherFault? && Wipeable(w, sh, root.store)
      then Go(EmptyStore(sh, root.store), proc, TaskFailed(false))
      else Blocked
    case TaskDeciding(force, stored) =>
      if ch.Fresh? && !force && stored.Some? then Go(sh, proc, TaskDone(stored.value.generation))
      else if ch.Renewable? && stored.Some? then Go(sh, proc, TaskRefreshing(stored.value))
      else if ch.Expired? then Go(sh, proc, TaskEstablishing)
      else Blocked
    case TaskRefreshing(current) =>
      if ch.Proceed? then
        Go(sh.(issued := sh.issued + [HomeOf(root)]), proc,
           TaskPersist(Snapshot(key, |sh.issued|), Some(current.generation)))
      else if ch.Refuse? then
        (match ch.refusal
         case RootTerminal => Go(sh, proc, TaskFailed(true))
         case EndsSession => Go(sh, proc, Clearing(Wanting, Target(key, Some(current.generation)), EndSession))
         case NeedsNewSession => Go(sh, proc, Clearing(Wanting, Target(key, Some(current.generation)), Replace))
         case Other => Go(sh, proc, TaskFailed(false)))
      else Blocked
    case TaskEstablishing =>
      if ch.Proceed? then
        Go(sh.(issued := sh.issued + [HomeOf(root)]), proc, TaskPersist(Snapshot(key, |sh.issued|), None))
      else if ch.Refuse? then Go(sh, proc, TaskFailed(ch.refusal.RootTerminal?))
      else Blocked
    case TaskPersist(grant, prior) =>
      if ch.Proceed? then
        Take(sh, proc, StateLock(key), if key in sh.retired then TaskFailed(true) else TaskSaving(grant, prior))
      else Blocked
    case TaskSaving(grant, prior) =>
      if ch.Proceed? || (ch.Fail? && ch.applied) then
        Go(sh.(stores := sh.stores[root.store := grant],
               superseded := sh.superseded + (if prior.Some? then {prior.value} else {})),
           proc, if ch.Proceed? then TaskSaved(grant) else TaskFailed(false))
      else if ch.Fail? then Go(sh, proc, TaskFailed(false))
      else if ch.KeyGone? then Go(sh, proc, Clearing(Wanting, Target(key, Some(grant.generation)), Undo))
      else if ch == Refuse(RootTerminal) && Flagged(w, sh, proc.root) then Go(sh, proc, TaskFailed(true))
      else Blocked
    case TaskSaved(grant) =>
      if ch.Proceed? then
        Go(sh, proc, if Flagged(w, sh, proc.root) then TaskFailed(true) else TaskDone(grant.generation))
      else if ch.KeyGone? then Go(sh, proc, Clearing(Wanting, Target(key, Some(grant.generation)), Undo))
      else Blocked
    case _ => Blocked
  }

  function MoveCleanup(w: Wiring, sh: Shared, proc: Proc, ch: Choice): Step
    requires proc.root < |w.roots|
  {
    var root := w.roots[proc.root];
    var key := KeyOf(root);
    match proc.pc
    case MarkRetired =>
      if ch.Proceed? then Go(sh.(retired := sh.retired + {key}), proc, MarkRevoked) else Blocked
    case MarkRevoked =>
      if ch.Proceed? then Go(sh.(revoked := sh.revoked + {proc.root}), proc, CancelTask) else Blocked
    case CancelTask =>
      if ch.Proceed? then Go(sh.(inFlight := sh.inFlight - {proc.root}), proc, WantRevocation) else Blocked
    case WantRevocation =>
      if ch.Proceed? then
        Take(sh, proc, RevocationLock(proc.root),
             if proc.root in sh.cleaned then Ended else Clearing(Wanting, Target(key, None), Cleanup))
      else Blocked
    case WantReset(cleared) =>
      if ch.Proceed? then
        if !root.resettable then Go(sh, proc, Finish(cleared, true))
        else Take(sh, proc, ResetLock(key), if key in sh.keyReset then Finish(cleared, true) else Resetting(cleared))
      else Blocked
    case Resetting(cleared) =>
      if ch.Proceed? then
        Go(sh.(keyReset := sh.keyReset + {key}, resets := sh.resets + multiset{key}), proc, Finish(cleared, true))
      else if ch.Fail? then Go(sh, proc, Finish(cleared, false))
      else Blocked
    case Finish(cleared, reset) =>
      if ch.Proceed? then
        Go(sh.(cleaned := if cleared && reset then sh.cleaned + {proc.root} else sh.cleaned - {proc.root}), proc, Ended)
      else Blocked
    case _ => Blocked
  }

  function MoveCaller(w: Wiring, s: State, proc: Proc, ch: Choice): Step
    requires proc.root < |w.roots|
  {
    var sh := s.shared;
    var flagged := Flagged(w, sh, proc.root);
    match proc.pc
    case Enter(job) => if ch.Proceed? then Go(sh, proc, if flagged then MarkRetired else Join(job)) else Blocked
    case Join(job) =>
      if !ch.Proceed? then Blocked
      else if flagged then Go(sh, proc, MarkRetired)
      else if proc.root in sh.inFlight && sh.inFlight[proc.root] < |s.procs| &&
              !Finished(s.procs[sh.inFlight[proc.root]].pc) then
        Go(sh, proc, Await(job, sh.inFlight[proc.root]))
      else
        Step(None, sh.(inFlight := sh.inFlight[proc.root := |s.procs|]), proc.(pc := Await(job, |s.procs|)),
             Some(Proc(proc.root, TaskQueued(job.Force?), None, proc.stale)))
    case Await(job, task) =>
      if !ch.Proceed? || task >= |s.procs| then Blocked
      else
        (match s.procs[task].pc
         case TaskDone(generation) => Go(sh, proc, Recheck(job, generation))
         case TaskFailed(terminal) => Go(sh, proc, if terminal then MarkRetired else Ended)
         case _ => Blocked)
    case Recheck(job, generation) =>
      if ch.Proceed? then
        Go(sh, proc, if flagged then MarkRetired else if job.Force? then Ended else Prove(job, generation, false))
      else Blocked
    case Prove(job, generation, retried) =>
      if ch.Proceed? then
        Go(sh, proc, if job.Control? && flagged then MarkRetired else Confirm(job, generation, retried))
      else Blocked
    case Confirm(job, generation, retried) =>
      if ch.Proceed? then
        Go(sh, proc,
           if flagged then MarkRetired
           else if job.Authorize? then Authorized(generation) else Exchange(job, generation, retried))
      else Blocked
    case Exchange(job, generation, retried) =>
      if ch.Proceed? then Go(sh, proc, if job.Control? && job.revokes then MarkRetired else Ended)
      else if ch.Nonce? && !retried then Go(sh, proc, Prove(job, generation, true))
      else if ch.Refuse? then
        Go(sh, proc,
           if ch.refusal.RootTerminal? then MarkRetired
           else if ch.refusal.EndsSession?
           then Clearing(Wanting, Target(KeyOf(w.roots[proc.root]), Some(generation)), Caller)
           else Ended)
      else Blocked
    case Forget =>
      if !ch.Proceed? then Blocked
      else if flagged then Go(sh, proc, MarkRetired)
      else if proc.root in sh.inFlight then
        Go(sh.(inFlight := sh.inFlight - {proc.root}), proc, Leave(sh.inFlight[proc.root]))
      else Go(sh, proc, Clearing(Wanting, Target(KeyOf(w.roots[proc.root]), None), Caller))
    case Leave(task) =>
      if ch.Proceed? && task < |s.procs| && Finished(s.procs[task].pc)
      then Go(sh, proc, Clearing(Wanting, Target(KeyOf(w.roots[proc.root]), None), Caller))
      else Blocked
    case _ => Blocked
  }

  function MoveComponent(w: Wiring, sh: Shared, proc: Proc, ch: Choice): Step
    requires proc.root < |w.roots|
  {
    match proc.pc
    case ComponentQueued(i) =>
      if ch.Proceed? then Take(sh, proc, ComponentLock(i), ComponentWaiting(i)) else Blocked
    case ComponentWaiting(i) =>
      if ch.Proceed? && i < |w.components|
      then Take(sh, proc, SessionLock(w.components[i].coordination), ComponentWorking(i)) else Blocked
    case ComponentWorking(i) =>
      if ch.Proceed? then Go(sh, proc, Ended)
      else if ch.Renewable? then Go(sh, proc, ComponentRefreshing(i))
      else Blocked
    case ComponentRefreshing(i) =>
      if ch.Proceed? || ch.Fail? then Go(sh, proc, Ended) else Blocked
    case ComponentRevoking(i) =>
      if ch.Proceed? && i < |w.components| then
        Step(Some(SessionLock(w.components[i].coordination)), sh,
             proc.(pc := Enter(Control(false)), outer := Some(i)), None)
      else Blocked
    case _ => Blocked
  }

  /** The region a process runs next under the given choice. */
  function Move(w: Wiring, s: State, p: nat, ch: Choice): Step
    requires p < |s.procs| && s.procs[p].root < |w.roots|
  {
    var proc := s.procs[p];
    if Finished(proc.pc) then Blocked
    else if ch.Abort? then
      if NonCancellable(proc.pc) then Blocked
      else Go(s.shared, proc, if IsTask(proc.pc) then TaskFailed(false) else Ended)
    else if proc.pc.Clearing? then MoveClearing(w, s.shared, proc, ch)
    else if IsTask(proc.pc) then MoveTask(w, s.shared, proc, ch)
    else if NonCancellable(proc.pc) then MoveCleanup(w, s.shared, proc, ch)
    else if IsComponent(proc.pc) then MoveComponent(w, s.shared, proc, ch)
    else MoveCaller(w, s, proc, ch)
  }

  predicate RootsInRange(w: Wiring, s: State) {
    forall p :: 0 <= p < |s.procs| ==> s.procs[p].root < |w.roots|
  }

  predicate Free(w: Wiring, s: State, lock: Lock)
    requires RootsInRange(w, s)
  {
    forall q :: 0 <= q < |s.procs| ==> lock !in Held(w, s.procs[q])
  }

  predicate Starts(w: Wiring, sh: Shared, proc: Proc) {
    && proc.root < |w.roots|
    && proc.outer.None?
    && proc.stale == (KeyOf(w.roots[proc.root]) in sh.retired)
    && (|| proc.pc.Enter? || proc.pc.MarkRetired? || proc.pc.Forget?
        || (proc.pc.Clearing? && proc.pc.stage.Wanting? && proc.pc.purpose.Caller? &&
            proc.pc.target.key == KeyOf(w.roots[proc.root]) && proc.pc.target.generation.Some?)
        || (proc.pc.ComponentQueued? && ComponentOf(w, proc.pc.component, proc.root))
        || (proc.pc.ComponentRevoking? && ComponentOf(w, proc.pc.component, proc.root)))
  }

  predicate ComponentOf(w: Wiring, component: nat, root: nat) {
    component < |w.components| && w.components[component].root == root
  }

  datatype Action = Begin(proc: Proc) | Advance(p: nat, choice: Choice)

  /** The state after an action, when the action is enabled. */
  function Apply(w: Wiring, s: State, a: Action): Option<State>
    requires RootsInRange(w, s)
  {
    match a
    case Begin(proc) =>
      if Starts(w, s.shared, proc) then Some(State(s.shared, s.procs + [proc])) else None
    case Advance(p, ch) =>
      if p >= |s.procs| then None
      else
        var step := Move(w, s, p, ch);
        if step.Blocked? || (step.acquire.Some? && !Free(w, s, step.acquire.value)) then None
        else
          var procs := s.procs[p := step.next];
          Some(State(step.shared, if step.spawn.Some? then procs + [step.spawn.value] else procs))
  }

  ghost predicate Next(w: Wiring, s: State, s': State) {
    RootsInRange(w, s) && exists a :: Apply(w, s, a) == Some(s')
  }

  /** A process that has just started: no operation has run, stores hold what an earlier process saved. */
  predicate Initial(s: State) {
    && s.procs == []
    && s.shared.retired == {} && s.shared.keyReset == {} && s.shared.revoked == {} && s.shared.cleaned == {}
    && s.shared.inFlight == map[] && s.shared.cleared == {} && s.shared.superseded == {}
    && s.shared.resets == multiset{}
    && forall st <- s.shared.stores ::
         && s.shared.stores[st].generation < |s.shared.issued|
         && s.shared.issued[s.shared.stores[st].generation] == Home(st, s.shared.stores[st].jkt)
  }

  ghost predicate Run(w: Wiring, t: seq<State>) {
    && |t| > 0
    && Initial(t[0])
    && forall i :: 0 <= i < |t| - 1 ==> Next(w, t[i], t[i + 1])
  }
}
