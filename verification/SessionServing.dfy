/** Which session an operation serves: the one its own coordinator's task loaded or saved, and no other. */
module SessionServing {
  import opened Prelude
  import opened SessionModel
  import opened SessionSafety
  import opened SessionTheorems
  import opened SessionProgress

  /** The generation a caller took from its task and carries to the gateway or to its own caller. */
  function Carried(pc: Pc): Option<nat> {
    match pc
    case Recheck(_, generation) => Some(generation)
    case Prove(_, generation, _) => Some(generation)
    case Confirm(_, generation, _) => Some(generation)
    case Exchange(_, generation, _) => Some(generation)
    case Authorized(generation) => Some(generation)
    case _ => None
  }

  /** The generation a task found in its store or put there, refreshes or ends with. */
  function Found(pc: Pc): Option<nat> {
    match pc
    case TaskDeciding(_, stored) => if stored.Some? then Some(stored.value.generation) else None
    case TaskRefreshing(current) => Some(current.generation)
    case TaskSaved(grant) => Some(grant.generation)
    case TaskDone(generation) => Some(generation)
    case _ => None
  }

  predicate Ends(s: State, task: nat, generation: nat) {
    task < |s.procs| && s.procs[task].pc == TaskDone(generation)
  }

  predicate Awaits(s: State, p: nat, task: nat) {
    p < |s.procs| && s.procs[p].pc.Await? && s.procs[p].pc.task == task
  }

  predicate Stores(w: Wiring, s: State, root: nat, generation: nat) {
    root < |w.roots| && w.roots[root].store in s.shared.stores
    && s.shared.stores[w.roots[root].store] == Snapshot(KeyOf(w.roots[root]), generation)
  }

  // ---------- Single steps ----------

  /** What a step carries it carried before, or it has just received it from the task it awaited. */
  predicate CarriesOn(s: State, proc: Proc, step: Step) {
    step.Step? ==>
      && step.next.root == proc.root
      && (Carried(step.next.pc).Some? ==>
            || Carried(proc.pc) == Carried(step.next.pc)
            || (proc.pc.Await? && Ends(s, proc.pc.task, Carried(step.next.pc).value)))
      && (step.spawn.Some? ==> Carried(step.spawn.value.pc).None? && Found(step.spawn.value.pc).None?)
  }

  lemma CallerCarries(w: Wiring, s: State, proc: Proc, ch: Choice)
    requires proc.root < |w.roots|
    ensures CarriesOn(s, proc, MoveCaller(w, s, proc, ch))
  {
    hide Flagged;
  }

  lemma MoveCarries(w: Wiring, s: State, p: nat, ch: Choice)
    requires p < |s.procs| && s.procs[p].root < |w.roots|
    ensures CarriesOn(s, s.procs[p], Move(w, s, p, ch))
  {
    hide MoveCaller, Flagged, RecordClear, EmptyStore, Matches, Wipeable;
    var proc := s.procs[p];
    CallerCarries(w, s, proc, ch);
    if proc.pc.Clearing? {
      assert CarriesOn(s, proc, MoveClearing(w, s.shared, proc, ch));
    } else if IsTask(proc.pc) {
      TaskCarriesNothing(w, s, proc, ch);
    } else if NonCancellable(proc.pc) {
      assert CarriesOn(s, proc, MoveCleanup(w, s.shared, proc, ch));
    } else if IsComponent(proc.pc) {
      assert CarriesOn(s, proc, MoveComponent(w, s.shared, proc, ch));
    }
  }

  lemma TaskCarriesNothing(w: Wiring, s: State, proc: Proc, ch: Choice)
    requires proc.root < |w.roots|
    ensures CarriesOn(s, proc, MoveTask(w, s.shared, proc, ch))
  {
    hide Flagged, EmptyStore, Wipeable, HomeOf;
  }

  /** What a step has found it had found before, it is in the store it loads, or it is what it has just saved. */
  predicate FindsOn(w: Wiring, s: State, proc: Proc, step: Step)
    requires proc.root < |w.roots|
  {
    step.Step? && Found(step.next.pc).Some? ==>
      var g := Found(step.next.pc).value;
      || Found(proc.pc) == Some(g)
      || (proc.pc.TaskLoading? && Stores(w, s, proc.root, g))
      || (proc.pc.TaskSaving? && step.next.pc == TaskSaved(Snapshot(KeyOf(w.roots[proc.root]), g))
          && Stores(w, State(step.shared, s.procs), proc.root, g))
  }

  lemma TaskFinds(w: Wiring, s: State, proc: Proc, ch: Choice)
    requires proc.root < |w.roots| && (proc.pc.TaskSaving? ==> proc.pc.grant.jkt == KeyOf(w.roots[proc.root]))
    ensures FindsOn(w, s, proc, MoveTask(w, s.shared, proc, ch))
  {
    hide Flagged;
  }

  lemma MoveFinds(w: Wiring, s: State, p: nat, ch: Choice)
    requires p < |s.procs| && RetireLocal(w, s.shared, s.procs[p])
    ensures FindsOn(w, s, s.procs[p], Move(w, s, p, ch))
  {
    hide MoveTask, Flagged, RecordClear, EmptyStore, Matches, Wipeable, Stores;
    var proc := s.procs[p];
    TaskFinds(w, s, proc, ch);
    if proc.pc.Clearing? {
      assert FindsOn(w, s, proc, MoveClearing(w, s.shared, proc, ch));
    } else if NonCancellable(proc.pc) {
      assert FindsOn(w, s, proc, MoveCleanup(w, s.shared, proc, ch));
    } else if IsComponent(proc.pc) {
      assert FindsOn(w, s, proc, MoveComponent(w, s.shared, proc, ch));
    } else if !IsTask(proc.pc) {
      CallerFindsNothing(w, s, proc, ch);
    }
  }

  lemma CallerFindsNothing(w: Wiring, s: State, proc: Proc, ch: Choice)
    requires proc.root < |w.roots|
    ensures FindsOn(w, s, proc, MoveCaller(w, s, proc, ch))
  {
    hide Flagged, Stores;
  }

  // ---------- Runs ----------

  /** A process that has found a generation was there one step earlier, with that generation, or found it now. */
  lemma FoundBefore(w: Wiring, t: seq<State>, i: nat, q: nat)
    requires Run(w, t) && 0 < i < |t| && q < |t[i].procs| && Found(t[i].procs[q].pc).Some?
    ensures q < |t[i - 1].procs| && t[i - 1].procs[q].root == t[i].procs[q].root
    ensures var root, g := t[i].procs[q].root, Found(t[i].procs[q].pc).value;
      || Found(t[i - 1].procs[q].pc) == Some(g)
      || (t[i - 1].procs[q].pc.TaskLoading? && Stores(w, t[i - 1], root, g))
      || (&& root < |w.roots| && t[i].procs[q].pc == TaskSaved(Snapshot(KeyOf(w.roots[root]), g))
          && Stores(w, t[i], root, g))
  {
    hide Move, Found;
    RunInvariant(w, t, i - 1);
    assert Next(w, t[i - 1], t[i]);
    var a :| Apply(w, t[i - 1], a) == Some(t[i]);
    if a.Advance? {
      assert RetireLocal(w, t[i - 1].shared, t[i - 1].procs[a.p]);
      hide Invariant, Run, RetireLocal;
      MoveFinds(w, t[i - 1], a.p, a.choice);
      MoveCarries(w, t[i - 1], a.p, a.choice);
    } else {
      BeginsEmpty(w, t[i - 1].shared, a.proc);
    }
  }

  lemma BeginsEmpty(w: Wiring, sh: Shared, proc: Proc)
    requires Starts(w, sh, proc)
    ensures Found(proc.pc).None? && Carried(proc.pc).None?
  {
  }

  /**
   * A task refreshes, and ends with, a generation that was in its own store, under its own key, when it loaded
   * the store or just after it had saved its grant.
   */
  lemma {:induction false} TaskFound(w: Wiring, t: seq<State>, i: nat, q: nat) returns (j: nat)
    requires Run(w, t) && i < |t| && q < |t[i].procs| && Found(t[i].procs[q].pc).Some?
    ensures j <= i && q < |t[j].procs| && t[j].procs[q].root == t[i].procs[q].root
    ensures t[j].procs[q].pc.TaskLoading? || t[j].procs[q].pc.TaskSaved?
    ensures Stores(w, t[j], t[i].procs[q].root, Found(t[i].procs[q].pc).value)
    decreases i
  {
    hide Run, Found, Stores;
    if i == 0 {
      NobodyAtFirst(w, t);
    }
    FoundBefore(w, t, i, q);
    if Found(t[i - 1].procs[q].pc) == Found(t[i].procs[q].pc) {
      j := TaskFound(w, t, i - 1, q);
    } else if t[i - 1].procs[q].pc.TaskLoading? && Stores(w, t[i - 1], t[i].procs[q].root, Found(t[i].procs[q].pc).value) {
      j := i - 1;
    } else {
      j := i;
    }
  }

  lemma CarriedBefore(w: Wiring, t: seq<State>, i: nat, p: nat)
    requires Run(w, t) && 0 < i < |t| && p < |t[i].procs| && Carried(t[i].procs[p].pc).Some?
    ensures p < |t[i - 1].procs| && t[i - 1].procs[p].root == t[i].procs[p].root
    ensures || Carried(t[i - 1].procs[p].pc) == Carried(t[i].procs[p].pc)
            || (t[i - 1].procs[p].pc.Await? && Ends(t[i - 1], t[i - 1].procs[p].pc.task, Carried(t[i].procs[p].pc).value))
  {
    hide Move, Carried, Ends;
    RunInvariant(w, t, i - 1);
    assert Next(w, t[i - 1], t[i]);
    var a :| Apply(w, t[i - 1], a) == Some(t[i]);
    if a.Advance? {
      hide Invariant, Run;
      MoveCarries(w, t[i - 1], a.p, a.choice);
    } else {
      BeginsEmpty(w, t[i - 1].shared, a.proc);
    }
  }

  /** What a caller carries is what the task that it awaited ended with. */
  lemma {:induction false} CarriesItsTask(w: Wiring, t: seq<State>, i: nat, p: nat) returns (k: nat, task: nat)
    requires Run(w, t) && i < |t| && p < |t[i].procs| && Carried(t[i].procs[p].pc).Some?
    ensures k < i && Awaits(t[k], p, task) && t[k].procs[p].root == t[i].procs[p].root
    ensures Ends(t[k], task, Carried(t[i].procs[p].pc).value)
    decreases i
  {
    hide Run, Carried, Ends;
    if i == 0 {
      NobodyAtFirst(w, t);
    }
    CarriedBefore(w, t, i, p);
    if Carried(t[i - 1].procs[p].pc) == Carried(t[i].procs[p].pc) {
      k, task := CarriesItsTask(w, t, i - 1, p);
    } else {
      k, task := i - 1, t[i - 1].procs[p].pc.task;
    }
  }

  /** The generation was granted to the coordinator's own store and key. */
  predicate OwnGrant(w: Wiring, sh: Shared, root: nat, generation: nat) {
    root < |w.roots| && generation < |sh.issued| && sh.issued[generation] == HomeOf(w.roots[root])
  }

  lemma StoredIsOwn(w: Wiring, t: seq<State>, j: nat, root: nat, generation: nat)
    requires Run(w, t) && j < |t| && Stores(w, t[j], root, generation)
    ensures OwnGrant(w, t[j].shared, root, generation)
  {
    RunInvariant(w, t, j);
    assert HomeShared(t[j].shared);
  }

  lemma {:induction false} GrantsStay(w: Wiring, t: seq<State>, j: nat, i: nat, root: nat, generation: nat)
    requires Run(w, t) && j <= i < |t| && OwnGrant(w, t[j].shared, root, generation)
    ensures OwnGrant(w, t[i].shared, root, generation)
    decreases i
  {
    hide Run, HomeOf;
    if j < i {
      GrantsStay(w, t, j, i - 1, root, generation);
      StepIssues(w, t, i);
    }
  }

  lemma StepIssues(w: Wiring, t: seq<State>, i: nat)
    requires Run(w, t) && 0 < i < |t|
    ensures t[i - 1].shared.issued <= t[i].shared.issued
  {
    hide Move;
    assert Next(w, t[i - 1], t[i]);
    var a :| Apply(w, t[i - 1], a) == Some(t[i]);
    if a.Advance? {
      MoveEffect(w, t[i - 1], a.p, a.choice);
    }
  }

  /**
   * Headers, and everything sent to the gateway, carry the session of the operation's own coordinator: the
   * one that the task it awaited had loaded from its store or saved there, granted to that store and key.
   */
  lemma ServesOwnSession(w: Wiring, t: seq<State>, i: nat, p: nat) returns (k: nat, task: nat, j: nat)
    requires Run(w, t) && i < |t| && p < |t[i].procs| && Carried(t[i].procs[p].pc).Some?
    ensures j <= k < i && Awaits(t[k], p, task) && Ends(t[k], task, Carried(t[i].procs[p].pc).value)
    ensures Stores(w, t[j], t[i].procs[p].root, Carried(t[i].procs[p].pc).value)
    ensures task < |t[j].procs| && (t[j].procs[task].pc.TaskLoading? || t[j].procs[task].pc.TaskSaved?)
    ensures OwnGrant(w, t[i].shared, t[i].procs[p].root, Carried(t[i].procs[p].pc).value)
  {
    hide Run, Stores, OwnGrant, Carried;
    k, task := CarriesItsTask(w, t, i, p);
    RunLinked(w, t, k);
    AwaitedIsOwn(w, t[k], p, task);
    j := TaskFound(w, t, k, task);
    var root, g := t[i].procs[p].root, Carried(t[i].procs[p].pc).value;
    StoredIsOwn(w, t, j, root, g);
    GrantsStay(w, t, j, i, root, g);
  }

  lemma AwaitedIsOwn(w: Wiring, s: State, p: nat, task: nat)
    requires LinkInv(w, s) && Awaits(s, p, task)
    ensures task < |s.procs| && s.procs[task].root == s.procs[p].root
  {
    assert Linked(w, s, s.procs[p]);
  }
}
