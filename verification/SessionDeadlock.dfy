/** The deadlock of components whose keys form a cycle with those of their roots, and the exact condition. */
module SessionDeadlock {
  import opened Prelude
  import opened SessionModel
  import opened SessionSafety
  import opened SessionTheorems
  import opened SessionWitnesses
  import opened SessionProgress

  predicate RootsExist(w: Wiring) {
    forall i | 0 <= i < |w.components| :: w.components[i].root < |w.roots|
  }

  /** The key whose session lock the revocation of a component holds. */
  function OwnKey(w: Wiring, i: nat): CoordinationKey
    requires i < |w.components|
  {
    w.components[i].coordination
  }

  /** The key whose session lock that revocation then needs. */
  function RootKey(w: Wiring, i: nat): CoordinationKey
    requires i < |w.components| && RootsExist(w)
  {
    w.roots[w.components[i].root].coordination
  }

  // ---------- Orders and cycles ----------

  predicate Indices(w: Wiring, c: seq<nat>) {
    forall k :: 0 <= k < |c| ==> c[k] < |w.components|
  }

  predicate DistinctKeys(w: Wiring, c: seq<nat>)
    requires Indices(w, c)
  {
    forall j, k :: 0 <= j < k < |c| ==> OwnKey(w, c[j]) != OwnKey(w, c[k])
  }

  /** Components of different keys, each of which leads to the next. */
  predicate Path(w: Wiring, c: seq<nat>)
    requires RootsExist(w)
  {
    && |c| > 0 && Indices(w, c) && DistinctKeys(w, c)
    && forall k :: 0 <= k < |c| - 1 ==> RootKey(w, c[k]) == OwnKey(w, c[k + 1])
  }

  /** A path whose last component leads back to the first; a component on the key of its root is one. */
  predicate Cycle(w: Wiring, c: seq<nat>)
    requires RootsExist(w)
  {
    Path(w, c) && RootKey(w, c[|c| - 1]) == OwnKey(w, c[0])
  }

  ghost predicate Orders(w: Wiring, some: set<nat>, rank: CoordinationKey -> nat, limit: nat)
    requires RootsExist(w)
  {
    && (forall key :: rank(key) <= limit)
    && forall i <- some :: i < |w.components| ==> rank(OwnKey(w, i)) < rank(RootKey(w, i))
  }

  ghost predicate Ordered(w: Wiring, some: set<nat>)
    requires RootsExist(w)
  {
    exists rank, limit :: Orders(w, some, rank, limit)
  }

  predicate LeadsInto(w: Wiring, some: set<nat>, i: nat)
    requires i < |w.components| && RootsExist(w)
  {
    exists j <- some :: j < |w.components| && OwnKey(w, j) == RootKey(w, i)
  }

  /** A component that leads to none of the others can be put on top of any order of them. */
  lemma OrderGrows(w: Wiring, some: set<nat>, i: nat)
    requires RootsExist(w) && i in some && i < |w.components|
    requires !LeadsInto(w, some, i) && Ordered(w, some - {i})
    ensures Ordered(w, some)
  {
    var rank, limit :| Orders(w, some - {i}, rank, limit);
    var top := RootKey(w, i);
    var higher := (key: CoordinationKey) => if key == top then limit + 1 else rank(key);
    forall j <- some | j < |w.components| ensures higher(OwnKey(w, j)) < higher(RootKey(w, j)) {
      assert OwnKey(w, j) != top;
      assert j != i ==> j in some - {i};
    }
    assert Orders(w, some, higher, limit + 1);
  }

  lemma Successor(w: Wiring, some: set<nat>, i: nat) returns (j: nat)
    requires RootsExist(w) && i < |w.components| && LeadsInto(w, some, i)
    ensures j in some && j < |w.components| && OwnKey(w, j) == RootKey(w, i)
  {
    j :| j in some && j < |w.components| && OwnKey(w, j) == RootKey(w, i);
  }

  /** Where every component leads to another, following them runs into a cycle. */
  lemma {:induction false} FollowPath(w: Wiring, some: set<nat>, c: seq<nat>) returns (cycle: seq<nat>)
    requires RootsExist(w) && Path(w, c) && forall k :: 0 <= k < |c| ==> c[k] in some
    requires forall i <- some :: i < |w.components| ==> LeadsInto(w, some, i)
    ensures Cycle(w, cycle)
    decreases some - (set i | i in c)
  {
    hide LeadsInto, OwnKey, RootKey, Cycle;
    var j := Successor(w, some, c[|c| - 1]);
    if m :| 0 <= m < |c| && OwnKey(w, c[m]) == OwnKey(w, j) {
      CloseCycle(w, c, m);
      cycle := c[m..];
    } else {
      PathGrows(w, c, j);
      assert forall m :: 0 <= m < |c| ==> c[m] != j;
      assert (set i | i in c + [j]) == (set i | i in c) + {j};
      assert j in some - (set i | i in c);
      cycle := FollowPath(w, some, c + [j]);
    }
  }

  lemma CloseCycle(w: Wiring, c: seq<nat>, m: nat)
    requires RootsExist(w) && Path(w, c) && m < |c| && RootKey(w, c[|c| - 1]) == OwnKey(w, c[m])
    ensures Cycle(w, c[m..])
  {
    hide OwnKey, RootKey;
    var rest := c[m..];
    forall k | 0 <= k < |rest| - 1 ensures RootKey(w, rest[k]) == OwnKey(w, rest[k + 1]) {
      assert rest[k] == c[m + k] && rest[k + 1] == c[m + k + 1];
    }
  }

  lemma PathGrows(w: Wiring, c: seq<nat>, j: nat)
    requires RootsExist(w) && Path(w, c) && j < |w.components| && RootKey(w, c[|c| - 1]) == OwnKey(w, j)
    requires forall m :: 0 <= m < |c| ==> OwnKey(w, c[m]) != OwnKey(w, j)
    ensures Path(w, c + [j])
  {
    hide OwnKey, RootKey;
    var longer := c + [j];
    forall k | 0 <= k < |longer| - 1 ensures RootKey(w, longer[k]) == OwnKey(w, longer[k + 1]) {
      assert longer[k] == c[k];
    }
  }

  lemma SingletonPath(w: Wiring, i: nat)
    requires RootsExist(w) && i < |w.components|
    ensures Path(w, [i])
  {
  }

  /** Components can be ordered from own key to root key, or some of them form a cycle. */
  lemma {:induction false} OrderOrCycle(w: Wiring, some: set<nat>) returns (cycle: seq<nat>)
    requires RootsExist(w) && forall i <- some :: i < |w.components|
    ensures Ordered(w, some) || Cycle(w, cycle)
    decreases some
  {
    hide Path, LeadsInto, OwnKey, RootKey;
    cycle := [];
    if some == {} {
      assert Orders(w, some, (key: CoordinationKey) => 0, 0);
    } else if i :| i in some && !LeadsInto(w, some, i) {
      hide Orders, Cycle;
      cycle := OrderOrCycle(w, some - {i});
      if Ordered(w, some - {i}) {
        OrderGrows(w, some, i);
      }
    } else {
      var i :| i in some;
      SingletonPath(w, i);
      cycle := FollowPath(w, some, [i]);
    }
  }

  // ---------- The stuck state of a cycle ----------

  /** Each component revocation of `c` awaits a task of its root, which is queueing. */
  function Jam(w: Wiring, c: seq<nat>, m: nat): State
    requires RootsExist(w) && Indices(w, c) && m <= |c|
  {
    if m == 0 then Start(map[], [])
    else Revoking(w, Jam(w, c, m - 1), c[m - 1])
  }

  /** One more component revocation and the task that it started. */
  function Revoking(w: Wiring, s: State, i: nat): State
    requires i < |w.components|
  {
    var root, n := w.components[i].root, |s.procs|;
    State(s.shared.(inFlight := s.shared.inFlight[root := n + 1]),
          s.procs + [Proc(root, Await(Control(false), n + 1), Some(i), false),
                     Proc(root, TaskQueued(false), None, false)])
  }

  lemma {:induction false} JamShape(w: Wiring, c: seq<nat>, m: nat)
    requires RootsExist(w) && Indices(w, c) && m <= |c|
    ensures var s := Jam(w, c, m);
            && |s.procs| == 2 * m && RootsInRange(w, s)
            && s.shared.retired == {} && s.shared.revoked == {}
            && (forall r <- s.shared.inFlight :: exists k :: 0 <= k < m && w.components[c[k]].root == r)
            && (forall k :: 0 <= k < m ==>
                  && s.procs[2 * k] == Proc(w.components[c[k]].root, Await(Control(false), 2 * k + 1), Some(c[k]), false)
                  && s.procs[2 * k + 1] == Proc(w.components[c[k]].root, TaskQueued(false), None, false))
  {
    if m > 0 {
      JamShape(w, c, m - 1);
    }
  }

  /** The process that begins, enters and joins for the revocation of a component. */
  function Revoker(w: Wiring, i: nat, pc: Pc, holds: bool): Proc
    requires i < |w.components|
  {
    Proc(w.components[i].root, pc, if holds then Some(i) else None, false)
  }

  /** One more process, at the given point. */
  function With(s: State, proc: Proc): State {
    State(s.shared, s.procs + [proc])
  }

  lemma WithMoves(s: State, proc: Proc, next: Proc)
    ensures State(s.shared, With(s, proc).procs[|s.procs| := next]) == With(s, next)
  {
  }

  lemma BeginRevoking(w: Wiring, s: State, i: nat)
    requires RootsExist(w) && i < |w.components| && RootsInRange(w, s) && s.shared.retired == {}
    ensures Apply(w, s, Begin(Revoker(w, i, ComponentRevoking(i), false)))
         == Some(With(s, Revoker(w, i, ComponentRevoking(i), false)))
  {
    hide Move;
  }

  /** A process that holds no lock leaves every lock as free as it was. */
  lemma StillFree(w: Wiring, s: State, i: nat, lock: Lock)
    requires RootsExist(w) && i < |w.components| && RootsInRange(w, s) && Free(w, s, lock)
    ensures RootsInRange(w, With(s, Revoker(w, i, ComponentRevoking(i), false)))
    ensures Free(w, With(s, Revoker(w, i, ComponentRevoking(i), false)), lock)
  {
    var s' := With(s, Revoker(w, i, ComponentRevoking(i), false));
    forall q | 0 <= q < |s'.procs| ensures s'.procs[q].root < |w.roots| && lock !in Held(w, s'.procs[q]) {
      if q < |s.procs| {
        assert s'.procs[q] == s.procs[q];
      }
    }
  }

  lemma EnterRevoking(w: Wiring, s: State, i: nat)
    requires RootsExist(w) && i < |w.components| && RootsInRange(w, s) && Free(w, s, SessionLock(OwnKey(w, i)))
    ensures RootsInRange(w, With(s, Revoker(w, i, ComponentRevoking(i), false)))
    ensures Apply(w, With(s, Revoker(w, i, ComponentRevoking(i), false)), Advance(|s.procs|, Proceed))
         == Some(With(s, Revoker(w, i, Enter(Control(false)), true)))
  {
    var begun, entered := Revoker(w, i, ComponentRevoking(i), false), Revoker(w, i, Enter(Control(false)), true);
    StillFree(w, s, i, SessionLock(OwnKey(w, i)));
    WithMoves(s, begun, entered);
    assert Move(w, With(s, begun), |s.procs|, Proceed) == MoveComponent(w, s.shared, begun, Proceed);
    hide Move, Free, MoveTask, MoveCaller, MoveCleanup, MoveClearing;
  }

  lemma JoinRevoking(w: Wiring, s: State, i: nat)
    requires RootsExist(w) && i < |w.components| && RootsInRange(w, s)
    requires s.shared.retired == {} && s.shared.revoked == {}
    ensures var entered := With(s, Revoker(w, i, Enter(Control(false)), true));
      && RootsInRange(w, entered)
      && Apply(w, entered, Advance(|s.procs|, Proceed)) == Some(With(s, Revoker(w, i, Join(Control(false)), true)))
  {
    var entered, joined := Revoker(w, i, Enter(Control(false)), true), Revoker(w, i, Join(Control(false)), true);
    WithMoves(s, entered, joined);
    assert Move(w, With(s, entered), |s.procs|, Proceed) == MoveCaller(w, With(s, entered), entered, Proceed);
    hide Move, MoveTask, MoveCleanup, MoveClearing, MoveComponent;
  }

  lemma AwaitRevoking(w: Wiring, s: State, i: nat)
    requires RootsExist(w) && i < |w.components| && RootsInRange(w, s)
    requires s.shared.retired == {} && s.shared.revoked == {} && w.components[i].root !in s.shared.inFlight
    ensures var joined := With(s, Revoker(w, i, Join(Control(false)), true));
      RootsInRange(w, joined) && Apply(w, joined, Advance(|s.procs|, Proceed)) == Some(Revoking(w, s, i))
  {
    var joined, n := Revoker(w, i, Join(Control(false)), true), |s.procs|;
    var waiting := joined.(pc := Await(Control(false), n + 1));
    WithMoves(s, joined, waiting);
    assert Move(w, With(s, joined), n, Proceed) == MoveCaller(w, With(s, joined), joined, Proceed);
    hide Move, MoveTask, MoveCleanup, MoveClearing, MoveComponent;
    var queued := Proc(w.components[i].root, TaskQueued(false), None, false);
    assert With(s, waiting).procs + [queued] == Revoking(w, s, i).procs;
  }

  /** A revocation begins, takes its session lock, joins its root and, finding no task there, awaits a new one. */
  lemma ReachRevoking(w: Wiring, t: seq<State>, i: nat) returns (t': seq<State>)
    requires RootsExist(w) && i < |w.components| && Run(w, t) && RootsInRange(w, Last(t))
    requires Last(t).shared.retired == {} && Last(t).shared.revoked == {}
    requires Free(w, Last(t), SessionLock(OwnKey(w, i))) && w.components[i].root !in Last(t).shared.inFlight
    ensures Run(w, t') && Last(t') == Revoking(w, Last(t), i)
  {
    hide Next, Apply, Revoking, With, Free;
    var s := Last(t);
    var begun := With(s, Revoker(w, i, ComponentRevoking(i), false));
    var entered := With(s, Revoker(w, i, Enter(Control(false)), true));
    var joined := With(s, Revoker(w, i, Join(Control(false)), true));
    BeginRevoking(w, s, i);
    Extend(w, t, Begin(Revoker(w, i, ComponentRevoking(i), false)), begun);
    EnterRevoking(w, s, i);
    Extend(w, t + [begun], Advance(|s.procs|, Proceed), entered);
    JoinRevoking(w, s, i);
    Extend(w, t + [begun] + [entered], Advance(|s.procs|, Proceed), joined);
    AwaitRevoking(w, s, i);
    Extend(w, t + [begun] + [entered] + [joined], Advance(|s.procs|, Proceed), Revoking(w, s, i));
    t' := t + [begun] + [entered] + [joined] + [Revoking(w, s, i)];
  }

  /** On a path, the revocations seen so far hold neither the next component key nor a task of its root. */
  lemma NextIsFree(w: Wiring, c: seq<nat>, m: nat)
    requires RootsExist(w) && Cycle(w, c) && m < |c|
    ensures var s := Jam(w, c, m);
            && RootsInRange(w, s) && Free(w, s, SessionLock(OwnKey(w, c[m])))
            && w.components[c[m]].root !in s.shared.inFlight
  {
    hide Jam;
    JamShape(w, c, m);
    var s := Jam(w, c, m);
    forall q | 0 <= q < |s.procs| ensures SessionLock(OwnKey(w, c[m])) !in Held(w, s.procs[q]) {
      assert q == 2 * (q / 2) || q == 2 * (q / 2) + 1;
      assert OwnKey(w, c[q / 2]) != OwnKey(w, c[m]);
    }
    forall k | 0 <= k < m ensures w.components[c[k]].root != w.components[c[m]].root {
      RootsDiffer(w, c, k, m);
    }
  }

  lemma RootsDiffer(w: Wiring, c: seq<nat>, j: nat, k: nat)
    requires RootsExist(w) && Cycle(w, c) && j < k < |c|
    ensures RootKey(w, c[j]) != RootKey(w, c[k])
  {
    assert RootKey(w, c[j]) == OwnKey(w, c[j + 1]);
    if k + 1 < |c| {
      assert RootKey(w, c[k]) == OwnKey(w, c[k + 1]);
    }
  }

  lemma {:induction false} ReachJam(w: Wiring, c: seq<nat>, m: nat) returns (t: seq<State>)
    requires RootsExist(w) && Cycle(w, c) && m <= |c|
    ensures Run(w, t) && Last(t) == Jam(w, c, m)
  {
    assert Indices(w, c);
    hide Next, Cycle, Revoking;
    if m == 0 {
      t := [Start(map[], [])];
    } else {
      t := ReachJam(w, c, m - 1);
      NextIsFree(w, c, m - 1);
      JamShape(w, c, m - 1);
      t := ReachRevoking(w, t, c[m - 1]);
    }
  }

  /** The task of one revocation queues for the lock that the next revocation on the cycle holds. */
  lemma TaskIsStuck(w: Wiring, c: seq<nat>, k: nat, ch: Choice)
    requires RootsExist(w) && Cycle(w, c) && k < |c| && !ch.Abort?
    ensures var s := Jam(w, c, |c|); RootsInRange(w, s) && Apply(w, s, Advance(2 * k + 1, ch)).None?
  {
    hide Jam, MoveCaller, MoveClearing, MoveCleanup, MoveComponent;
    JamShape(w, c, |c|);
    var s, next := Jam(w, c, |c|), if k + 1 < |c| then k + 1 else 0;
    assert RootKey(w, c[k]) == OwnKey(w, c[next]);
    assert s.procs[2 * next].outer == Some(c[next]);
    assert SessionLock(RootKey(w, c[k])) in Held(w, s.procs[2 * next]);
    assert Move(w, s, 2 * k + 1, ch) == MoveTask(w, s.shared, s.procs[2 * k + 1], ch);
  }

  lemma RevocationIsStuck(w: Wiring, c: seq<nat>, k: nat, ch: Choice)
    requires RootsExist(w) && Cycle(w, c) && k < |c| && !ch.Abort?
    ensures var s := Jam(w, c, |c|); RootsInRange(w, s) && Apply(w, s, Advance(2 * k, ch)).None?
  {
    hide Jam, MoveTask, MoveClearing, MoveCleanup, MoveComponent;
    JamShape(w, c, |c|);
    var s := Jam(w, c, |c|);
    assert Move(w, s, 2 * k, ch) == MoveCaller(w, s, s.procs[2 * k], ch);
  }

  lemma NobodySteps(w: Wiring, c: seq<nat>, p: nat, ch: Choice)
    requires RootsExist(w) && Cycle(w, c) && p < 2 * |c| && !ch.Abort?
    ensures var s := Jam(w, c, |c|); RootsInRange(w, s) && Apply(w, s, Advance(p, ch)).None?
  {
    hide Jam, Apply, RootsInRange;
    if p % 2 == 0 {
      RevocationIsStuck(w, c, p / 2, ch);
    } else {
      TaskIsStuck(w, c, p / 2, ch);
    }
  }

  /** The revocations of a cycle of components block one another for good. */
  lemma JamIsDeadlocked(w: Wiring, c: seq<nat>)
    requires RootsExist(w) && Cycle(w, c)
    ensures Deadlocked(w, Jam(w, c, |c|))
  {
    assert |c| > 0 && Indices(w, c);
    hide Jam, Apply, Cycle;
    var s := Jam(w, c, |c|);
    JamShape(w, c, |c|);
    assert !Finished(s.procs[2 * 0].pc);
    forall p, ch: Choice | 0 <= p < |s.procs| && !ch.Abort? ensures Apply(w, s, Advance(p, ch)).None? {
      NobodySteps(w, c, p, ch);
    }
  }

  // ---------- The exact condition ----------

  ghost predicate NeverDeadlocks(w: Wiring) {
    forall t, i :: Run(w, t) && 0 <= i < |t| ==> !Deadlocked(w, t[i])
  }

  /**
   * No run ever deadlocks exactly when the coordination keys can be ordered so that every component comes
   * before its root, that is, when no chain of components leads from a key back to itself.
   */
  lemma DeadlockFreeIff(w: Wiring)
    requires RootsExist(w)
    ensures NeverDeadlocks(w) <==> exists rank, limit :: LockOrder(w, rank, limit)
    ensures NeverDeadlocks(w) <==> !exists c :: Cycle(w, c)
  {
    hide Cycle, Deadlocked, Run, LockOrder;
    if rank, limit :| LockOrder(w, rank, limit) {
      forall t, i | Run(w, t) && 0 <= i < |t| ensures !Deadlocked(w, t[i]) {
        NoDeadlock(w, rank, limit, t, i);
      }
    }
    if c :| Cycle(w, c) {
      CycleDeadlocks(w, c);
    } else {
      AcyclicIsOrdered(w);
    }
  }

  lemma CycleDeadlocks(w: Wiring, c: seq<nat>)
    requires RootsExist(w) && Cycle(w, c)
    ensures !NeverDeadlocks(w)
  {
    var t := ReachJam(w, c, |c|);
    JamIsDeadlocked(w, c);
    assert Deadlocked(w, t[|t| - 1]);
  }

  function Below(n: nat): (r: set<nat>)
    ensures forall i: nat :: i in r <==> i < n
  {
    if n == 0 then {} else Below(n - 1) + {n - 1}
  }

  lemma AcyclicIsOrdered(w: Wiring)
    requires RootsExist(w) && !exists c :: Cycle(w, c)
    ensures exists rank, limit :: LockOrder(w, rank, limit)
  {
    hide Cycle;
    var all := Below(|w.components|);
    var c := OrderOrCycle(w, all);
    var rank, limit :| Orders(w, all, rank, limit);
    forall i | 0 <= i < |w.components| ensures rank(OwnKey(w, i)) < rank(RootKey(w, i)) {
      assert i in all;
    }
    assert forall i | 0 <= i < |w.components| :: rank(w.components[i].coordination) <= limit;
    assert forall i | 0 <= i < |w.components| :: OwnKey(w, i) == w.components[i].coordination;
    assert LockOrder(w, rank, limit);
  }
}
