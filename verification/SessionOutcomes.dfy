/** What an operation leaves behind when the gateway refuses it, ends its session, or is asked for a new one. */
module SessionOutcomes {
  import opened Prelude
  import opened SessionModel
  import opened SessionSafety
  import opened SessionTheorems

  // ---------- Headers are served only while the key is active ----------

  predicate Sends(pc: Pc) {
    pc.Authorized? || pc.Exchange?
  }

  predicate SendsActive(w: Wiring, sh: Shared, proc: Proc, step: Step)
    requires proc.root < |w.roots|
  {
    step.Step? && !Sends(proc.pc) && Sends(step.next.pc) ==> !Flagged(w, sh, proc.root)
  }

  lemma CallerSendsActive(w: Wiring, s: State, proc: Proc, ch: Choice)
    requires proc.root < |w.roots|
    ensures SendsActive(w, s.shared, proc, MoveCaller(w, s, proc, ch))
  {
    hide Flagged;
  }

  lemma MoveSendsActive(w: Wiring, s: State, p: nat, ch: Choice)
    requires p < |s.procs| && s.procs[p].root < |w.roots|
    ensures SendsActive(w, s.shared, s.procs[p], Move(w, s, p, ch))
  {
    hide MoveCaller, Flagged, RecordClear, EmptyStore, Matches, Wipeable;
    var proc := s.procs[p];
    CallerSendsActive(w, s, proc, ch);
    if proc.pc.Clearing? {
      assert SendsActive(w, s.shared, proc, MoveClearing(w, s.shared, proc, ch));
    } else if IsTask(proc.pc) {
      assert SendsActive(w, s.shared, proc, MoveTask(w, s.shared, proc, ch));
    } else if NonCancellable(proc.pc) {
      assert SendsActive(w, s.shared, proc, MoveCleanup(w, s.shared, proc, ch));
    } else if IsComponent(proc.pc) {
      assert SendsActive(w, s.shared, proc, MoveComponent(w, s.shared, proc, ch));
    }
  }

  /** At the step that returns headers or sends a request, neither the key is retired nor the coordinator revoked. */
  lemma ServesOnlyActive(w: Wiring, t: seq<State>, i: nat, p: nat)
    requires Run(w, t) && i + 1 < |t| && p < |t[i].procs| && t[i].procs[p].root < |w.roots|
    requires !Sends(t[i].procs[p].pc) && Sends(t[i + 1].procs[p].pc)
    ensures !Flagged(w, t[i].shared, t[i].procs[p].root)
  {
    hide Move, Sends, Flagged;
    assert Next(w, t[i], t[i + 1]);
    var a :| Apply(w, t[i], a) == Some(t[i + 1]);
    if a.Advance? {
      MoveSendsActive(w, t[i], a.p, a.choice);
    }
  }

  // ---------- A terminal answer retires the key ----------

  /** The gateway has accepted the revocation of the installation, or says that it is over. */
  predicate Terminal(s: State, p: nat, ch: Choice) {
    && p < |s.procs|
    && var pc := s.procs[p].pc;
       || (pc.Exchange? && (ch == Refuse(RootTerminal) || (ch.Proceed? && pc.job == Control(true))))
       || (pc.Await? && ch.Proceed? && pc.task < |s.procs| && s.procs[pc.task].pc == TaskFailed(true))
  }

  /** The operation is about to retire its key, or has done so. */
  predicate Retires(w: Wiring, s: State, p: nat) {
    && p < |s.procs| && s.procs[p].root < |w.roots|
    && (s.procs[p].pc.MarkRetired? || KeyOf(w.roots[s.procs[p].root]) in s.shared.retired)
  }

  lemma TerminalMoves(w: Wiring, s: State, p: nat, ch: Choice)
    requires Terminal(s, p, ch) && s.procs[p].root < |w.roots|
    ensures Move(w, s, p, ch) == Go(s.shared, s.procs[p], MarkRetired)
  {
    hide MoveTask, MoveClearing, MoveCleanup, MoveComponent, Flagged;
  }

  lemma TerminalMarks(w: Wiring, t: seq<State>, i: nat, p: nat, ch: Choice)
    requires Run(w, t) && StepsAt(w, t, i, p, ch) && Terminal(t[i], p, ch)
    ensures Retires(w, t[i + 1], p)
  {
    hide Move, Run;
    TerminalMoves(w, t[i], p, ch);
  }

  lemma MarkedMoves(w: Wiring, s: State, p: nat, ch: Choice)
    requires p < |s.procs| && s.procs[p].root < |w.roots| && s.procs[p].pc.MarkRetired?
    ensures var step := Move(w, s, p, ch);
      step.Step? ==> step.next.root == s.procs[p].root && KeyOf(w.roots[s.procs[p].root]) in step.shared.retired
  {
  }

  lemma RetiresNext(w: Wiring, t: seq<State>, i: nat, p: nat)
    requires Run(w, t) && 0 < i < |t| && Retires(w, t[i - 1], p)
    ensures Retires(w, t[i], p)
  {
    hide Move;
    StepGrows(w, t, i);
    assert Next(w, t[i - 1], t[i]);
    var a :| Apply(w, t[i - 1], a) == Some(t[i]);
    if a.Advance? && a.p == p && t[i - 1].procs[p].pc.MarkRetired? {
      MarkedMoves(w, t[i - 1], p, a.choice);
    }
  }

  /**
   * After a terminal answer an operation does not end, in any way, before it has retired its key: a completed
   * revocation, a terminal refusal of its own request, or one that the task it awaited received.
   */
  lemma {:induction false} TerminalRetires(w: Wiring, t: seq<State>, i: nat, p: nat, ch: Choice, j: nat)
    requires Run(w, t) && StepsAt(w, t, i, p, ch) && Terminal(t[i], p, ch) && i < j < |t|
    ensures Retires(w, t[j], p)
    ensures Finished(t[j].procs[p].pc) ==> KeyOf(w.roots[t[j].procs[p].root]) in t[j].shared.retired
    decreases j
  {
    hide Run, StepsAt, Terminal;
    if j == i + 1 {
      TerminalMarks(w, t, i, p, ch);
    } else {
      TerminalRetires(w, t, i, p, ch, j - 1);
      RetiresNext(w, t, j, p);
    }
  }

  /** What one step of the run did to a process. */
  lemma Stepped(w: Wiring, t: seq<State>, i: nat, p: nat) returns (moved: bool, ch: Choice)
    requires Run(w, t) && i + 1 < |t| && p < |t[i].procs|
    ensures RootsInRange(w, t[i]) && p < |t[i + 1].procs|
    ensures if !moved then t[i + 1].procs[p] == t[i].procs[p] else
              && StepsAt(w, t, i, p, ch)
              && var step := Move(w, t[i], p, ch);
                 step.Step? && t[i + 1].procs[p] == step.next
  {
    hide Move;
    moved, ch := false, Proceed;
    assert Next(w, t[i], t[i + 1]);
    var a :| Apply(w, t[i], a) == Some(t[i + 1]);
    if a.Advance? && a.p == p {
      moved, ch := true, a.choice;
    }
  }

  lemma RefusalFails(w: Wiring, s: State, q: nat)
    requires q < |s.procs| && s.procs[q].root < |w.roots|
    requires s.procs[q].pc.TaskRefreshing? || s.procs[q].pc.TaskEstablishing?
    ensures Move(w, s, q, Refuse(RootTerminal)) == Go(s.shared, s.procs[q], TaskFailed(true))
  {
    hide MoveCaller, MoveCleanup, MoveClearing, MoveComponent;
  }

  /** A terminal refusal of a task's own request reaches every caller that awaits it. */
  lemma {:induction false} TaskStaysTerminal(w: Wiring, t: seq<State>, i: nat, q: nat, j: nat)
    requires Run(w, t) && StepsAt(w, t, i, q, Refuse(RootTerminal)) && q < |t[i].procs| && i < j < |t|
    requires t[i].procs[q].pc.TaskRefreshing? || t[i].procs[q].pc.TaskEstablishing?
    ensures q < |t[j].procs| && t[j].procs[q].pc == TaskFailed(true)
    decreases j
  {
    hide MoveTask, MoveCaller, MoveCleanup, MoveClearing, MoveComponent, Run;
    if j == i + 1 {
      RefusalFails(w, t[i], q);
    } else {
      TaskStaysTerminal(w, t, i, q, j - 1);
      var moved, ch := Stepped(w, t, j - 1, q);
    }
  }

  // ---------- A lost key undoes the save ----------

  /** Clears the grant it was saving, or has failed. */
  predicate Undoing(pc: Pc, target: Target) {
    (pc.Clearing? && pc.purpose.Undo? && pc.target == target) || pc == TaskFailed(false)
  }

  lemma KeyLossUndoes(w: Wiring, s: State, q: nat)
    requires q < |s.procs| && s.procs[q].root < |w.roots|
    requires s.procs[q].pc.TaskSaving? || s.procs[q].pc.TaskSaved?
    ensures var target := Target(KeyOf(w.roots[s.procs[q].root]), Some(s.procs[q].pc.grant.generation));
      Move(w, s, q, KeyGone) == Go(s.shared, s.procs[q], Clearing(Wanting, target, Undo))
  {
    hide MoveCaller, MoveCleanup, MoveClearing, MoveComponent;
  }

  lemma UndoingGoesOn(w: Wiring, s: State, q: nat, ch: Choice, target: Target)
    requires q < |s.procs| && s.procs[q].root < |w.roots| && Undoing(s.procs[q].pc, target)
    ensures var step := Move(w, s, q, ch); step.Step? ==> Undoing(step.next.pc, target)
  {
    hide MoveTask, MoveCaller, MoveCleanup, MoveComponent, EmptyStore, Matches, Wipeable;
  }

  /**
   * A task that finds its key gone while it saves never ends with the session: it clears exactly the grant it
   * was saving and fails.
   */
  lemma {:induction false} KeyLossFails(w: Wiring, t: seq<State>, i: nat, q: nat, j: nat)
    requires Run(w, t) && StepsAt(w, t, i, q, KeyGone) && q < |t[i].procs| && i < j < |t|
    requires t[i].procs[q].pc.TaskSaving? || t[i].procs[q].pc.TaskSaved?
    ensures t[i].procs[q].root < |w.roots| && q < |t[j].procs|
    ensures var target := Target(KeyOf(w.roots[t[i].procs[q].root]), Some(t[i].procs[q].pc.grant.generation));
      t[i + 1].procs[q].pc == Clearing(Wanting, target, Undo) && Undoing(t[j].procs[q].pc, target)
    decreases j
  {
    hide Move, Run;
    KeyLossUndoes(w, t[i], q);
    if j > i + 1 {
      KeyLossFails(w, t, i, q, j - 1);
      var moved, ch := Stepped(w, t, j - 1, q);
      if moved {
        UndoingGoesOn(
          w, t[j - 1], q, ch, Target(KeyOf(w.roots[t[i].procs[q].root]), Some(t[i].procs[q].pc.grant.generation)));
      }
    }
  }

  // ---------- A nonce is retried once ----------

  /** The program points of an operation after its first request was answered with a nonce. */
  predicate Retried(pc: Pc) {
    match pc
    case Prove(_, _, retried) => retried
    case Confirm(_, _, retried) => retried
    case Exchange(_, _, retried) => retried
    case Clearing(_, _, purpose) => purpose.Caller? || purpose.Cleanup?
    case _ => NonCancellable(pc) || pc.Authorized? || pc.Ended?
  }

  lemma RetriedGoesOn(w: Wiring, s: State, p: nat, ch: Choice)
    requires p < |s.procs| && s.procs[p].root < |w.roots|
    ensures var step := Move(w, s, p, ch);
      step.Step? && (ch.Nonce? || Retried(s.procs[p].pc)) ==> Retried(step.next.pc)
    ensures ch.Nonce? && Retried(s.procs[p].pc) ==> Move(w, s, p, ch).Blocked?
  {
    hide EmptyStore, Matches, Wipeable, Flagged, HomeOf;
  }

  /** An operation repeats its request for a nonce at most once. */
  lemma {:induction false} NonceRetriedOnce(w: Wiring, t: seq<State>, i: nat, p: nat, j: nat)
    requires Run(w, t) && StepsAt(w, t, i, p, Nonce) && p < |t[i].procs| && i < j < |t|
    ensures p < |t[j].procs| && Retried(t[j].procs[p].pc) && !StepsAt(w, t, j, p, Nonce)
    decreases j
  {
    hide Move, Retried, Run;
    if j == i + 1 {
      RetriedGoesOn(w, t[i], p, Nonce);
    } else {
      NonceRetriedOnce(w, t, i, p, j - 1);
      var moved, ch := Stepped(w, t, j - 1, p);
      if moved {
        RetriedGoesOn(w, t[j - 1], p, ch);
      }
    }
    if StepsAt(w, t, j, p, Nonce) {
      RetriedGoesOn(w, t[j], p, Nonce);
    }
  }

  // ---------- Callers share a task ----------

  /** Where the root keeps a task in flight, a step that leaves one there leaves that one while it is unfinished. */
  predicate KeepsTask(s: State, root: nat, step: Step) {
    step.Step? && root in s.shared.inFlight && root in step.shared.inFlight
      && s.shared.inFlight[root] < |s.procs| && !Finished(s.procs[s.shared.inFlight[root]].pc) ==>
      step.shared.inFlight[root] == s.shared.inFlight[root]
  }

  lemma MoveKeepsTask(w: Wiring, s: State, p: nat, ch: Choice, root: nat)
    requires p < |s.procs| && s.procs[p].root < |w.roots|
    ensures KeepsTask(s, root, Move(w, s, p, ch))
  {
    hide Matches, Wipeable, Flagged, HomeOf;
  }

  lemma {:induction false} TaskStaysInFlight(w: Wiring, t: seq<State>, i: nat, j: nat, root: nat, task: nat)
    requires Run(w, t) && i <= j < |t| && task < |t[i].procs| && task < |t[j].procs|
    requires forall k :: i <= k <= j ==> root in t[k].shared.inFlight
    requires t[i].shared.inFlight[root] == task && !Finished(t[j].procs[task].pc)
    ensures t[j].shared.inFlight[root] == task
    decreases j
  {
    hide MoveTask, MoveCaller, MoveCleanup, MoveClearing, MoveComponent;
    if i < j {
      RunGrows(w, t, i, j - 1);
      var moved, ch := Stepped(w, t, j - 1, task);
      TaskStaysInFlight(w, t, i, j - 1, root, task);
      assert Next(w, t[j - 1], t[j]);
      var a :| Apply(w, t[j - 1], a) == Some(t[j]);
      hide Run, Move;
      if a.Advance? {
        MoveKeepsTask(w, t[j - 1], a.p, a.choice, root);
      }
    }
  }

  lemma JoinsInFlight(w: Wiring, s: State, p: nat)
    requires p < |s.procs| && s.procs[p].root < |w.roots| && s.procs[p].pc.Join?
    requires !Flagged(w, s.shared, s.procs[p].root)
    requires s.procs[p].root in s.shared.inFlight && s.shared.inFlight[s.procs[p].root] < |s.procs|
    requires !Finished(s.procs[s.shared.inFlight[s.procs[p].root]].pc)
    ensures Move(w, s, p, Proceed) ==
      Go(s.shared, s.procs[p], Await(s.procs[p].pc.job, s.shared.inFlight[s.procs[p].root]))
  {
    hide MoveTask, MoveCleanup, MoveClearing, MoveComponent;
  }

  /** As long as a task of a coordinator is unfinished and not given up, every operation that joins awaits that task. */
  lemma SharesTheTask(w: Wiring, t: seq<State>, i: nat, j: nat, p: nat, task: nat)
    requires Run(w, t) && i <= j < |t| && task < |t[i].procs| && task < |t[j].procs| && !Finished(t[j].procs[task].pc)
    requires StepsAt(w, t, j, p, Proceed) && p < |t[j].procs| && t[j].procs[p].pc.Join?
    requires !Flagged(w, t[j].shared, t[j].procs[p].root)
    requires forall k :: i <= k <= j ==> t[j].procs[p].root in t[k].shared.inFlight
    requires t[i].shared.inFlight[t[j].procs[p].root] == task
    ensures |t[j + 1].procs| == |t[j].procs| && t[j + 1].procs[p].pc == Await(t[j].procs[p].pc.job, task)
  {
    TaskStaysInFlight(w, t, i, j, t[j].procs[p].root, task);
    JoinsInFlight(w, t[j], p);
    hide Run, Move;
  }

  // ---------- A cleanup is complete for good ----------

  predicate Cleaning(pc: Pc) {
    pc.WantReset? || pc.Resetting? || pc.Finish? || (pc.Clearing? && pc.purpose.Cleanup?)
  }

  /** Nobody cleans up a coordinator whose cleanup is complete. */
  predicate CleanInv(s: State) {
    forall p :: 0 <= p < |s.procs| && Cleaning(s.procs[p].pc) ==> s.procs[p].root !in s.shared.cleaned
  }

  /** A cleanup starts only where none is complete, and only its last step records the outcome. */
  predicate CleansOn(sh: Shared, proc: Proc, step: Step) {
    step.Step? ==>
      && step.next.root == proc.root
      && (step.shared.cleaned == sh.cleaned
          || (proc.pc.Finish? && step.next.pc.Ended? &&
              step.shared.cleaned in {sh.cleaned + {proc.root}, sh.cleaned - {proc.root}}))
      && (Cleaning(step.next.pc) && !Cleaning(proc.pc) ==> proc.root !in sh.cleaned)
      && (step.spawn.Some? ==> !Cleaning(step.spawn.value.pc))
  }

  lemma TaskCleansNothing(w: Wiring, sh: Shared, proc: Proc, ch: Choice)
    requires proc.root < |w.roots|
    ensures CleansOn(sh, proc, MoveTask(w, sh, proc, ch))
  {
    hide Wipeable, Flagged, HomeOf;
  }

  lemma CallerCleansNothing(w: Wiring, s: State, proc: Proc, ch: Choice)
    requires proc.root < |w.roots|
    ensures CleansOn(s.shared, proc, MoveCaller(w, s, proc, ch))
  {
    hide Flagged;
  }

  lemma MoveCleans(w: Wiring, s: State, p: nat, ch: Choice)
    requires p < |s.procs| && s.procs[p].root < |w.roots|
    ensures CleansOn(s.shared, s.procs[p], Move(w, s, p, ch))
  {
    hide MoveTask, MoveCaller, Matches, Wipeable, Flagged, HomeOf;
    TaskCleansNothing(w, s.shared, s.procs[p], ch);
    CallerCleansNothing(w, s, s.procs[p], ch);
  }

  lemma CleaningHolds(w: Wiring, proc: Proc)
    requires proc.root < |w.roots| && Cleaning(proc.pc)
    ensures RevocationLock(proc.root) in Held(w, proc)
  {
  }

  lemma CleanNext(w: Wiring, s: State, s': State, a: Action)
    requires Exclusive(w, s) && CleanInv(s) && Apply(w, s, a) == Some(s')
    ensures CleanInv(s') && s.shared.cleaned <= s'.shared.cleaned
  {
    hide Move, Held;
    if a.Advance? {
      MoveCleans(w, s, a.p, a.choice);
      forall q | 0 <= q < |s'.procs| && Cleaning(s'.procs[q].pc) ensures s'.procs[q].root !in s'.shared.cleaned {
        if q != a.p && q < |s.procs| && s.procs[a.p].pc.Finish? && s.procs[q].root == s.procs[a.p].root {
          CleaningHolds(w, s.procs[q]);
          CleaningHolds(w, s.procs[a.p]);
          OneHolder(w, s, q, a.p, RevocationLock(s.procs[q].root));
        }
      }
    }
  }

  lemma {:induction false} RunClean(w: Wiring, t: seq<State>, i: nat)
    requires Run(w, t) && i < |t|
    ensures CleanInv(t[i])
  {
    if i > 0 {
      RunClean(w, t, i - 1);
      assert Exclusive(w, t[i - 1]) by {
        RunInvariant(w, t, i - 1);
      }
      assert Next(w, t[i - 1], t[i]);
      var a :| Apply(w, t[i - 1], a) == Some(t[i]);
      hide Apply, Exclusive;
      CleanNext(w, t[i - 1], t[i], a);
    }
  }

  lemma StaysCleaned(w: Wiring, t: seq<State>, i: nat)
    requires Run(w, t) && 0 < i < |t|
    ensures t[i - 1].shared.cleaned <= t[i].shared.cleaned
  {
    RunClean(w, t, i - 1);
    assert Exclusive(w, t[i - 1]) by {
      RunInvariant(w, t, i - 1);
    }
    assert Next(w, t[i - 1], t[i]);
    var a :| Apply(w, t[i - 1], a) == Some(t[i]);
    hide Apply, Exclusive;
    CleanNext(w, t[i - 1], t[i], a);
  }

  /** A coordinator whose cleanup is complete stays so: no later cleanup repeats it or takes the mark back. */
  lemma {:induction false} CompleteForGood(w: Wiring, t: seq<State>, i: nat, j: nat)
    requires Run(w, t) && i <= j < |t|
    ensures t[i].shared.cleaned <= t[j].shared.cleaned
    ensures forall p :: 0 <= p < |t[j].procs| && Cleaning(t[j].procs[p].pc) ==>
      t[j].procs[p].root !in t[i].shared.cleaned
    decreases j
  {
    hide Run, Cleaning;
    RunClean(w, t, j);
    if i < j {
      CompleteForGood(w, t, i, j - 1);
      StaysCleaned(w, t, j);
    }
  }

  // ---------- A clear names what was used ----------

  /** The point a clear comes from, which decides what it names. */
  predicate Origin(w: Wiring, s: State, p: nat, target: Target, purpose: Purpose) {
    && p < |s.procs| && s.procs[p].root < |w.roots|
    && var pc, root := s.procs[p].pc, w.roots[s.procs[p].root];
       match purpose
       case Foreign(force) =>
         && pc == TaskLoading(force) && root.store in s.shared.stores
         && target == Target(s.shared.stores[root.store].jkt, None)
       case Replace => pc.TaskRefreshing? && target == Target(KeyOf(root), Some(pc.current.generation))
       case EndSession => pc.TaskRefreshing? && target == Target(KeyOf(root), Some(pc.current.generation))
       case Undo =>
         (pc.TaskSaving? || pc.TaskSaved?) && target == Target(KeyOf(root), Some(pc.grant.generation))
       case Cleanup => pc.WantRevocation? && target == Target(KeyOf(root), None)
       case Caller =>
         || (pc.Exchange? && target == Target(KeyOf(root), Some(pc.generation)))
         || ((pc.Forget? || pc.Leave?) && target == Target(KeyOf(root), None))
  }

  predicate NamesUsed(w: Wiring, s: State, p: nat, step: Step)
    requires p < |s.procs|
  {
    step.Step? ==>
      && (step.next.pc.Clearing? ==>
            || Origin(w, s, p, step.next.pc.target, step.next.pc.purpose)
            || (s.procs[p].pc.Clearing? && s.procs[p].pc.target == step.next.pc.target &&
                s.procs[p].pc.purpose == step.next.pc.purpose))
      && (step.spawn.Some? ==> !step.spawn.value.pc.Clearing?)
  }

  lemma TaskNames(w: Wiring, s: State, p: nat, ch: Choice)
    requires p < |s.procs| && s.procs[p].root < |w.roots|
    ensures NamesUsed(w, s, p, MoveTask(w, s.shared, s.procs[p], ch))
  {
    hide Flagged, EmptyStore, Wipeable, HomeOf;
  }

  lemma CallerNames(w: Wiring, s: State, p: nat, ch: Choice)
    requires p < |s.procs| && s.procs[p].root < |w.roots|
    ensures NamesUsed(w, s, p, MoveCaller(w, s, s.procs[p], ch))
  {
    hide Flagged;
  }

  lemma MoveNames(w: Wiring, s: State, p: nat, ch: Choice)
    requires p < |s.procs| && s.procs[p].root < |w.roots|
    ensures NamesUsed(w, s, p, Move(w, s, p, ch))
  {
    hide MoveTask, MoveCaller, Flagged, RecordClear, EmptyStore, Matches, Wipeable;
    var proc := s.procs[p];
    TaskNames(w, s, p, ch);
    CallerNames(w, s, p, ch);
    if proc.pc.Clearing? {
      assert NamesUsed(w, s, p, MoveClearing(w, s.shared, proc, ch));
    } else if NonCancellable(proc.pc) {
      assert NamesUsed(w, s, p, MoveCleanup(w, s.shared, proc, ch));
    } else if IsComponent(proc.pc) {
      assert NamesUsed(w, s, p, MoveComponent(w, s.shared, proc, ch));
    }
  }

  /** The process began as the clear of one generation of its own key, which its caller named. */
  predicate BeganAs(w: Wiring, t: seq<State>, k: nat, p: nat, target: Target) {
    && 0 < k < |t| && |t[k - 1].procs| <= p < |t[k].procs| && t[k].procs[p].root < |w.roots|
    && target.key == KeyOf(w.roots[t[k].procs[p].root]) && target.generation.Some?
  }

  lemma ClearingBefore(w: Wiring, t: seq<State>, i: nat, p: nat)
    requires Run(w, t) && 0 < i < |t| && p < |t[i].procs| && t[i].procs[p].pc.Clearing?
    ensures var pc := t[i].procs[p].pc;
      || (p < |t[i - 1].procs| && Origin(w, t[i - 1], p, pc.target, pc.purpose))
      || (p < |t[i - 1].procs| && t[i - 1].procs[p].pc.Clearing? && t[i - 1].procs[p].pc.target == pc.target
          && t[i - 1].procs[p].pc.purpose == pc.purpose)
      || (pc.purpose.Caller? && BeganAs(w, t, i, p, pc.target))
  {
    hide Move, Origin;
    assert Next(w, t[i - 1], t[i]);
    var a :| Apply(w, t[i - 1], a) == Some(t[i]);
    hide Run;
    if a.Advance? {
      MoveNames(w, t[i - 1], a.p, a.choice);
    }
  }

  /**
   * Every clear names what its operation used: the key it found foreign, the session it tried to refresh or
   * to use, the grant it was saving, everything of its own key in a cleanup, or what its caller named.
   */
  lemma {:induction false} ClearsWhatItUsed(w: Wiring, t: seq<State>, i: nat, p: nat) returns (k: nat)
    requires Run(w, t) && i < |t| && p < |t[i].procs| && t[i].procs[p].pc.Clearing?
    ensures k <= i
    ensures var pc := t[i].procs[p].pc;
      Origin(w, t[k], p, pc.target, pc.purpose) || (pc.purpose.Caller? && BeganAs(w, t, k, p, pc.target))
    decreases i
  {
    hide Origin, BeganAs;
    NobodyAtFirst(w, t);
    hide Run;
    ClearingBefore(w, t, i, p);
    var pc := t[i].procs[p].pc;
    if p < |t[i - 1].procs| && Origin(w, t[i - 1], p, pc.target, pc.purpose) {
      k := i - 1;
    } else if pc.purpose.Caller? && BeganAs(w, t, i, p, pc.target) {
      k := i;
    } else {
      k := ClearsWhatItUsed(w, t, i - 1, p);
    }
  }

  /** A clear that succeeds leaves no snapshot that it names. */
  lemma ClearEmpties(w: Wiring, t: seq<State>, i: nat, p: nat)
    requires Run(w, t) && StepsAt(w, t, i, p, Proceed) && p < |t[i].procs|
    requires t[i].procs[p].pc.Clearing? && !t[i].procs[p].pc.stage.Wanting? && !t[i + 1].procs[p].pc.Clearing?
    ensures t[i].procs[p].root < |w.roots|
    ensures var store := w.roots[t[i].procs[p].root].store;
      store !in t[i + 1].shared.stores || !Matches(t[i + 1].shared.stores[store], t[i].procs[p].pc.target)
  {
    hide Run, After;
  }

  // ---------- A forced refresh renews ----------

  /** A forced task since the time when so many generations had been issued. */
  predicate Renewing(pc: Pc, issued: nat) {
    match pc
    case TaskQueued(force) => force
    case TaskLoading(force) => force
    case TaskDeciding(force, _) => force
    case TaskRefreshing(_) => true
    case TaskEstablishing => true
    case TaskPersist(grant, _) => grant.generation >= issued
    case TaskSaving(grant, _) => grant.generation >= issued
    case TaskSaved(grant) => grant.generation >= issued
    case TaskDone(generation) => generation >= issued
    case TaskFailed(_) => true
    case Clearing(_, _, purpose) => InTask(purpose) && (purpose.Foreign? ==> purpose.force)
    case _ => false
  }

  predicate RenewsOn(proc: Proc, issued: nat, step: Step) {
    Renewing(proc.pc, issued) && step.Step? ==> Renewing(step.next.pc, issued)
  }

  lemma TaskRenews(w: Wiring, sh: Shared, proc: Proc, ch: Choice, issued: nat)
    requires proc.root < |w.roots| && issued <= |sh.issued|
    ensures RenewsOn(proc, issued, MoveTask(w, sh, proc, ch))
  {
    hide Flagged, EmptyStore, Wipeable, HomeOf;
  }

  lemma MoveRenews(w: Wiring, s: State, p: nat, ch: Choice, issued: nat)
    requires p < |s.procs| && s.procs[p].root < |w.roots| && issued <= |s.shared.issued|
    ensures RenewsOn(s.procs[p], issued, Move(w, s, p, ch))
  {
    hide MoveTask, MoveCaller, MoveCleanup, MoveComponent, Flagged, RecordClear, EmptyStore, Matches, Wipeable;
    TaskRenews(w, s.shared, s.procs[p], ch, issued);
  }

  lemma ForcedStarts(w: Wiring, t: seq<State>, i: nat, p: nat)
    requires Run(w, t) && StepsAt(w, t, i, p, Proceed) && p < |t[i].procs| && t[i].procs[p].pc == Join(Force)
    requires |t[i + 1].procs| > |t[i].procs|
    ensures Renewing(t[i + 1].procs[|t[i].procs|].pc, |t[i].shared.issued|)
    ensures t[i + 1].shared.issued == t[i].shared.issued
  {
    hide MoveTask, MoveClearing, MoveCleanup, MoveComponent, Flagged, Run;
    assert Move(w, t[i], p, Proceed) == MoveCaller(w, t[i], t[i].procs[p], Proceed);
  }

  lemma RenewsNext(w: Wiring, t: seq<State>, i: nat, q: nat, issued: nat)
    requires Run(w, t) && 0 < i < |t| && q < |t[i - 1].procs| && issued <= |t[i - 1].shared.issued|
    requires Renewing(t[i - 1].procs[q].pc, issued)
    ensures q < |t[i].procs| && Renewing(t[i].procs[q].pc, issued) && issued <= |t[i].shared.issued|
  {
    hide Move, Renewing;
    assert Next(w, t[i - 1], t[i]);
    var a :| Apply(w, t[i - 1], a) == Some(t[i]);
    hide Run;
    if a.Advance? {
      MoveRenews(w, t[i - 1], a.p, a.choice, issued);
      MoveEffect(w, t[i - 1], a.p, a.choice);
    }
  }

  /** A task that a forced refresh starts ends only with a generation that was granted after it started. */
  lemma {:induction false} ForcedRefreshRenews(w: Wiring, t: seq<State>, i: nat, p: nat, j: nat)
    requires Run(w, t) && StepsAt(w, t, i, p, Proceed) && p < |t[i].procs| && t[i].procs[p].pc == Join(Force)
    requires |t[i + 1].procs| > |t[i].procs| && i < j < |t|
    ensures var task, issued := |t[i].procs|, |t[i].shared.issued|;
      && task < |t[j].procs| && Renewing(t[j].procs[task].pc, issued) && issued <= |t[j].shared.issued|
      && (t[j].procs[task].pc.TaskDone? ==> t[j].procs[task].pc.generation >= issued)
    decreases j
  {
    hide Run, StepsAt;
    if j == i + 1 {
      ForcedStarts(w, t, i, p);
    } else {
      ForcedRefreshRenews(w, t, i, p, j - 1);
      RenewsNext(w, t, j, |t[i].procs|, |t[i].shared.issued|);
    }
  }
}
