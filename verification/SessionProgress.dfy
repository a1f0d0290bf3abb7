/** Freedom from deadlock: who waits for whom, and the lock order under which someone can always go on. */
module SessionProgress {
  import opened Prelude
  import opened SessionModel
  import opened SessionSafety
  import opened SessionTheorems

  // ---------- Links between processes ----------

  predicate TaskOf(s: State, task: nat, root: nat) {
    task < |s.procs| && IsTask(s.procs[task].pc) && s.procs[task].root == root
  }

  predicate Linked(w: Wiring, s: State, proc: Proc) {
    && (proc.outer.Some? ==> ComponentOf(w, proc.outer.value, proc.root) && !IsComponent(proc.pc))
    && (IsComponent(proc.pc) ==> ComponentOf(w, proc.pc.component, proc.root))
    && (proc.pc.Await? ==> TaskOf(s, proc.pc.task, proc.root))
    && (proc.pc.Leave? ==> TaskOf(s, proc.pc.task, proc.root))
  }

  predicate LinkInv(w: Wiring, s: State) {
    && (forall c <- s.shared.inFlight :: TaskOf(s, s.shared.inFlight[c], c))
    && forall p :: 0 <= p < |s.procs| ==> Linked(w, s, s.procs[p])
  }

  /** Everything a region keeps about links: tasks stay tasks, and new waits name tasks. */
  predicate StepLinked(w: Wiring, s: State, proc: Proc, step: Step) {
    step.Step? ==>
      && step.next.root == proc.root
      && (IsTask(proc.pc) ==> IsTask(step.next.pc))
      && (step.next.outer.Some? ==> ComponentOf(w, step.next.outer.value, proc.root) && !IsComponent(step.next.pc))
      && (IsComponent(step.next.pc) ==> ComponentOf(w, step.next.pc.component, proc.root))
      && (step.spawn.None? ==>
            && (step.next.pc.Await? ==> TaskOf(s, step.next.pc.task, proc.root))
            && (step.next.pc.Leave? ==> TaskOf(s, step.next.pc.task, proc.root))
            && (step.shared.inFlight == s.shared.inFlight || step.shared.inFlight == s.shared.inFlight - {proc.root}))
      && (step.spawn.Some? ==>
            && step.next.pc.Await? && step.next.pc.task == |s.procs|
            && IsTask(step.spawn.value.pc) && step.spawn.value.root == proc.root && step.spawn.value.outer.None?
            && !step.spawn.value.pc.Clearing?
            && step.shared.inFlight == s.shared.inFlight[proc.root := |s.procs|])
  }

  lemma ClearingLinked(w: Wiring, s: State, proc: Proc, ch: Choice)
    requires proc.root < |w.roots| && proc.pc.Clearing? && Linked(w, s, proc)
    ensures StepLinked(w, s, proc, MoveClearing(w, s.shared, proc, ch))
  {
    hide Matches;
  }

  lemma TaskLinked(w: Wiring, s: State, proc: Proc, ch: Choice)
    requires proc.root < |w.roots| && Linked(w, s, proc)
    ensures StepLinked(w, s, proc, MoveTask(w, s.shared, proc, ch))
  {
    hide Flagged, HomeOf;
  }

  lemma CleanupLinked(w: Wiring, s: State, proc: Proc, ch: Choice)
    requires proc.root < |w.roots| && Linked(w, s, proc) && !IsTask(proc.pc)
    ensures StepLinked(w, s, proc, MoveCleanup(w, s.shared, proc, ch))
  {
    hide Flagged;
  }

  lemma ComponentLinked(w: Wiring, s: State, proc: Proc, ch: Choice)
    requires proc.root < |w.roots| && Linked(w, s, proc)
    ensures StepLinked(w, s, proc, MoveComponent(w, s.shared, proc, ch))
  {
  }

  lemma CallerLinked(w: Wiring, s: State, proc: Proc, ch: Choice)
    requires proc.root < |w.roots| && Linked(w, s, proc) && !IsTask(proc.pc)
    requires proc.root in s.shared.inFlight ==> TaskOf(s, s.shared.inFlight[proc.root], proc.root)
    ensures StepLinked(w, s, proc, MoveCaller(w, s, proc, ch))
  {
    hide Flagged;
  }

  lemma MoveLinked(w: Wiring, s: State, p: nat, ch: Choice)
    requires p < |s.procs| && s.procs[p].root < |w.roots| && LinkInv(w, s)
    ensures StepLinked(w, s, s.procs[p], Move(w, s, p, ch))
  {
    var proc := s.procs[p];
    assert Linked(w, s, proc);
    if proc.pc.Clearing? {
      ClearingLinked(w, s, proc, ch);
    } else if IsTask(proc.pc) {
      TaskLinked(w, s, proc, ch);
    } else if NonCancellable(proc.pc) {
      CleanupLinked(w, s, proc, ch);
    } else if IsComponent(proc.pc) {
      ComponentLinked(w, s, proc, ch);
    } else {
      CallerLinked(w, s, proc, ch);
    }
  }

  lemma LinkNext(w: Wiring, s: State, a: Action)
    requires RootsInRange(w, s) && LinkInv(w, s) && Apply(w, s, a).Some?
    ensures LinkInv(w, Apply(w, s, a).value)
  {
    hide Move;
    var s' := Apply(w, s, a).value;
    if a.Advance? {
      MoveLinked(w, s, a.p, a.choice);
    }
    forall t: nat, root: nat | TaskOf(s, t, root) ensures TaskOf(s', t, root) {
    }
    forall q | 0 <= q < |s.procs| ensures Linked(w, s', s'.procs[q]) {
      assert Linked(w, s, s.procs[q]);
    }
  }

  lemma {:induction false} RunLinked(w: Wiring, t: seq<State>, i: nat)
    requires Run(w, t) && i < |t|
    ensures RootsInRange(w, t[i]) && LinkInv(w, t[i])
  {
    if i > 0 {
      RunLinked(w, t, i - 1);
      assert Next(w, t[i - 1], t[i]);
      var a :| Apply(w, t[i - 1], a) == Some(t[i]);
      LinkNext(w, t[i - 1], a);
      assert RootsInRange(w, t[i]) by {
        RunInvariant(w, t, i);
      }
    }
  }

  // ---------- Progress ----------

  /** The process has an enabled region; being cancelled does not count. */
  ghost predicate CanStep(w: Wiring, s: State, p: nat)
    requires RootsInRange(w, s)
  {
    exists ch: Choice :: !ch.Abort? && Apply(w, s, Advance(p, ch)).Some?
  }

  /** The lock a process is queueing for, if any. */
  function Wanted(w: Wiring, proc: Proc): Option<Lock>
    requires proc.root < |w.roots|
  {
    var root := w.roots[proc.root];
    match proc.pc
    case ComponentQueued(i) => Some(ComponentLock(i))
    case ComponentWaiting(i) =>
      if i < |w.components| then Some(SessionLock(w.components[i].coordination)) else None
    case ComponentRevoking(i) =>
      if i < |w.components| then Some(SessionLock(w.components[i].coordination)) else None
    case TaskQueued(_) => Some(SessionLock(root.coordination))
    case TaskPersist(_, _) => Some(StateLock(KeyOf(root)))
    case WantRevocation => Some(RevocationLock(proc.root))
    case WantReset(_) => if root.resettable then Some(ResetLock(KeyOf(root))) else None
    case Clearing(stage, target, _) => if stage.Wanting? then Some(StateLock(target.key)) else None
    case _ => None
  }

  predicate Waits(pc: Pc) {
    pc.Await? || pc.Leave?
  }

  /** How an unblocked process goes on: a loaded task decides, everything else proceeds. */
  function Pick(pc: Pc): Choice {
    if pc.TaskDeciding? then Expired else Proceed
  }

  predicate Enabled(w: Wiring, proc: Proc, step: Step)
    requires proc.root < |w.roots|
  {
    step.Step? && step.acquire == Wanted(w, proc)
  }

  /** Unless it awaits a task, an unfinished process can go on as soon as the lock it queues for is free. */
  lemma PickEnabled(w: Wiring, s: State, p: nat)
    requires p < |s.procs| && s.procs[p].root < |w.roots| && Linked(w, s, s.procs[p])
    requires !Finished(s.procs[p].pc) && !Waits(s.procs[p].pc)
    ensures Enabled(w, s.procs[p], Move(w, s, p, Pick(s.procs[p].pc)))
  {
    var proc := s.procs[p];
    var ch := Pick(proc.pc);
    if proc.pc.Clearing? {
      assert Enabled(w, proc, MoveClearing(w, s.shared, proc, ch));
    } else if IsTask(proc.pc) {
      assert Enabled(w, proc, MoveTask(w, s.shared, proc, ch));
    } else if NonCancellable(proc.pc) {
      assert Enabled(w, proc, MoveCleanup(w, s.shared, proc, ch));
    } else if IsComponent(proc.pc) {
      assert Enabled(w, proc, MoveComponent(w, s.shared, proc, ch));
    } else {
      assert Enabled(w, proc, MoveCaller(w, s, proc, ch));
    }
  }

  /** A lock order: revoking a component takes its session lock before that of its root. */
  ghost predicate LockOrder(w: Wiring, rank: CoordinationKey -> nat, limit: nat) {
    && (forall i | 0 <= i < |w.components| ::
          && w.components[i].root < |w.roots|
          && rank(w.components[i].coordination) < rank(w.roots[w.components[i].root].coordination))
    && (forall i | 0 <= i < |w.components| :: rank(w.components[i].coordination) <= limit)
    && (forall c | 0 <= c < |w.roots| :: rank(w.roots[c].coordination) <= limit)
  }

  /** The session lock that a process, or the task it awaits, may still have to take. */
  function Needs(w: Wiring, proc: Proc): CoordinationKey
    requires proc.root < |w.roots|
  {
    if IsComponent(proc.pc) && proc.pc.component < |w.components| then w.components[proc.pc.component].coordination
    else w.roots[proc.root].coordination
  }

  /** The order among points that need the same session lock. */
  function Depth(pc: Pc): nat {
    match pc
    case ComponentQueued(_) => 7
    case ComponentWaiting(_) => 6
    case ComponentRevoking(_) => 6
    case Await(_, _) => 5
    case Leave(_) => 5
    case TaskQueued(_) => 4
    case WantRevocation => 3
    case WantReset(_) => 2
    case TaskPersist(_, _) => 2
    case Clearing(stage, _, _) => if stage.Wanting? then 2 else 1
    case _ => 1
  }

  ghost function Measure(w: Wiring, rank: CoordinationKey -> nat, limit: nat, proc: Proc): int
    requires proc.root < |w.roots|
  {
    8 * (limit - rank(Needs(w, proc))) + Depth(proc.pc)
  }

  /** Whoever holds a lock that another process queues for is unfinished and closer to going on. */
  lemma HolderIsCloser(w: Wiring, rank: CoordinationKey -> nat, limit: nat, s: State, waiter: Proc, holder: Proc)
    requires LockOrder(w, rank, limit)
    requires waiter.root < |w.roots| && Linked(w, s, waiter) && Wanted(w, waiter).Some?
    requires holder.root < |w.roots| && Linked(w, s, holder) && Wanted(w, waiter).value in Held(w, holder)
    ensures !Finished(holder.pc)
    ensures Depth(holder.pc) == 1 || Measure(w, rank, limit, holder) < Measure(w, rank, limit, waiter)
  {
  }

  lemma GoesOn(w: Wiring, s: State, p: nat)
    requires RootsInRange(w, s) && p < |s.procs| && Linked(w, s, s.procs[p])
    requires !Finished(s.procs[p].pc) && !Waits(s.procs[p].pc)
    requires Wanted(w, s.procs[p]).Some? ==> Free(w, s, Wanted(w, s.procs[p]).value)
    ensures CanStep(w, s, p)
  {
    PickEnabled(w, s, p);
    assert Apply(w, s, Advance(p, Pick(s.procs[p].pc))).Some?;
  }

  lemma AwaitGoesOn(w: Wiring, s: State, p: nat)
    requires RootsInRange(w, s) && p < |s.procs| && Linked(w, s, s.procs[p])
    requires Waits(s.procs[p].pc) && Finished(s.procs[s.procs[p].pc.task].pc)
    ensures CanStep(w, s, p)
  {
    assert Move(w, s, p, Proceed) == MoveCaller(w, s, s.procs[p], Proceed);
    assert Apply(w, s, Advance(p, Proceed)).Some?;
  }

  /** The process awaits a task that goes on, or queues for a lock that the other one holds. */
  predicate WaitsFor(w: Wiring, s: State, p: nat, q: nat)
    requires RootsInRange(w, s) && p < |s.procs| && q < |s.procs|
  {
    if Waits(s.procs[p].pc) then s.procs[p].pc.task == q && !Finished(s.procs[q].pc)
    else Wanted(w, s.procs[p]).Some? && Wanted(w, s.procs[p]).value in Held(w, s.procs[q])
  }

  predicate Chain(w: Wiring, s: State, c: seq<nat>)
    requires RootsInRange(w, s)
  {
    && |c| > 0 && (forall k :: 0 <= k < |c| ==> c[k] < |s.procs|)
    && forall k :: 0 <= k < |c| - 1 ==> WaitsFor(w, s, c[k], c[k + 1])
  }

  lemma ChainGrows(w: Wiring, s: State, p: nat, c: seq<nat>)
    requires RootsInRange(w, s) && p < |s.procs| && Chain(w, s, c) && WaitsFor(w, s, p, c[0])
    ensures Chain(w, s, [p] + c)
  {
    hide WaitsFor;
    var longer := [p] + c;
    forall k | 0 <= k < |longer| - 1 ensures WaitsFor(w, s, longer[k], longer[k + 1]) {
      if k > 0 {
        assert longer[k] == c[k - 1] && longer[k + 1] == c[k];
      }
    }
  }

  /** Following the locks and awaits from any unfinished process leads to one that can go on. */
  lemma {:induction false} SomeoneSteps(w: Wiring, rank: CoordinationKey -> nat, limit: nat, s: State, p: nat)
    returns (c: seq<nat>)
    requires LockOrder(w, rank, limit) && RootsInRange(w, s) && LinkInv(w, s)
    requires p < |s.procs| && !Finished(s.procs[p].pc)
    ensures Chain(w, s, c) && c[0] == p && CanStep(w, s, c[|c| - 1])
    decreases Measure(w, rank, limit, s.procs[p])
  {
    hide Held, CanStep;
    var proc := s.procs[p];
    assert Linked(w, s, proc);
    c := [p];
    if Waits(proc.pc) {
      if Finished(s.procs[proc.pc.task].pc) {
        AwaitGoesOn(w, s, p);
      } else {
        c := SomeoneSteps(w, rank, limit, s, proc.pc.task);
        ChainGrows(w, s, p, c);
        c := [p] + c;
      }
    } else if Wanted(w, proc).Some? && !Free(w, s, Wanted(w, proc).value) {
      var h :| 0 <= h < |s.procs| && Wanted(w, proc).value in Held(w, s.procs[h]);
      assert Linked(w, s, s.procs[h]);
      HolderIsCloser(w, rank, limit, s, proc, s.procs[h]);
      if Depth(s.procs[h].pc) == 1 {
        GoesOn(w, s, h);
        c := [h];
      } else {
        c := SomeoneSteps(w, rank, limit, s, h);
      }
      ChainGrows(w, s, p, c);
      c := [p] + c;
    } else {
      GoesOn(w, s, p);
    }
  }

  /** Some process is unfinished, yet none has an enabled region. */
  ghost predicate Deadlocked(w: Wiring, s: State) {
    && RootsInRange(w, s)
    && (exists p :: 0 <= p < |s.procs| && !Finished(s.procs[p].pc))
    && forall p | 0 <= p < |s.procs| :: !CanStep(w, s, p)
  }

  /** When component keys come before root keys in some order, no reachable state is deadlocked. */
  lemma NoDeadlock(w: Wiring, rank: CoordinationKey -> nat, limit: nat, t: seq<State>, i: nat)
    requires LockOrder(w, rank, limit) && Run(w, t) && i < |t|
    ensures !Deadlocked(w, t[i])
  {
    RunLinked(w, t, i);
    if p :| 0 <= p < |t[i].procs| && !Finished(t[i].procs[p].pc) {
      var c := SomeoneSteps(w, rank, limit, t[i], p);
    }
  }
}
