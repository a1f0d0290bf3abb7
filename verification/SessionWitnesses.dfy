/**
 * Concrete runs that break a guarantee when the wiring condition for it fails, and the resulting
 * exact characterisations.
 */
module SessionWitnesses {
  import opened Prelude
  import opened SessionModel
  import opened SessionTheorems
  import opened SessionSafety

  function Last(t: seq<State>): State
    requires |t| > 0
  {
    t[|t| - 1]
  }

  lemma Extend(w: Wiring, t: seq<State>, a: Action, s: State)
    requires Run(w, t) && RootsInRange(w, Last(t)) && Apply(w, Last(t), a) == Some(s)
    ensures Run(w, t + [s])
  {
    var t' := t + [s];
    forall i | 0 <= i < |t'| - 1 ensures Next(w, t'[i], t'[i + 1]) {
      if i < |t| - 1 {
        assert t'[i] == t[i] && t'[i + 1] == t[i + 1];
        assert Next(w, t[i], t[i + 1]);
      } else {
        assert t'[i] == Last(t) && t'[i + 1] == s;
      }
    }
  }

  /** A process that has just started, with the given stores. */
  function Start(stores: map<StoreId, Snapshot>, issued: seq<Home>): State {
    State(Shared({}, {}, {}, {}, map[], stores, issued, {}, {}, multiset{}), [])
  }

  /** One region of process `p`, which neither takes a lock nor starts a task. */
  lemma Plain(w: Wiring, t: seq<State>, p: nat, ch: Choice, sh: Shared, pc: Pc) returns (t': seq<State>)
    requires Run(w, t) && RootsInRange(w, Last(t)) && p < |Last(t).procs|
    requires Move(w, Last(t), p, ch) == Go(sh, Last(t).procs[p], pc)
    ensures Run(w, t')
    ensures t' == t + [State(sh, Last(t).procs[p := Last(t).procs[p].(pc := pc)])]
  {
    var s' := State(sh, Last(t).procs[p := Last(t).procs[p].(pc := pc)]);
    Extend(w, t, Advance(p, ch), s');
    t' := t + [s'];
  }

  /** One region of process `p` that takes a free lock. */
  lemma Locking(w: Wiring, t: seq<State>, p: nat, lock: Lock, pc: Pc) returns (t': seq<State>)
    requires Run(w, t) && RootsInRange(w, Last(t)) && p < |Last(t).procs|
    requires Move(w, Last(t), p, Proceed) == Take(Last(t).shared, Last(t).procs[p], lock, pc)
    requires Free(w, Last(t), lock)
    ensures Run(w, t')
    ensures t' == t + [State(Last(t).shared, Last(t).procs[p := Last(t).procs[p].(pc := pc)])]
  {
    var s' := State(Last(t).shared, Last(t).procs[p := Last(t).procs[p].(pc := pc)]);
    Extend(w, t, Advance(p, Proceed), s');
    t' := t + [s'];
  }

  /** What a task sees when it loads: its store, which holds nothing foreign. */
  predicate Loads(w: Wiring, sh: Shared, c: nat, stored: Option<Snapshot>) {
    && c < |w.roots|
    && stored == (if w.roots[c].store in sh.stores then Some(sh.stores[w.roots[c].store]) else None)
    && (stored.Some? ==> stored.value.jkt == KeyOf(w.roots[c]))
  }

  /** A forced refresh of coordinator `c` and its task, just after the task has loaded. */
  function Decided(s: State, c: nat, stored: Option<Snapshot>): State {
    var n := |s.procs|;
    State(s.shared.(inFlight := s.shared.inFlight[c := n + 1]),
          s.procs + [Proc(c, Await(Force, n + 1), None, false), Proc(c, TaskDeciding(true, stored), None, false)])
  }

  /** The caller and the queued task of a forced refresh. */
  function Queued(s: State, c: nat): State {
    var n := |s.procs|;
    State(s.shared.(inFlight := s.shared.inFlight[c := n + 1]),
          s.procs + [Proc(c, Await(Force, n + 1), None, false), Proc(c, TaskQueued(true), None, false)])
  }

  lemma ReachQueued(w: Wiring, t: seq<State>, c: nat) returns (t': seq<State>)
    requires Run(w, t) && RootsInRange(w, Last(t)) && c < |w.roots|
    requires !Flagged(w, Last(t).shared, c) && c !in Last(t).shared.inFlight
    ensures Run(w, t') && Last(t') == Queued(Last(t), c)
  {
    var s := Last(t);
    var n := |s.procs|;
    var begun := Proc(c, Enter(Force), None, false);
    var s1 := State(s.shared, s.procs + [begun]);
    Extend(w, t, Begin(begun), s1);
    t' := Plain(w, t + [s1], n, Proceed, s.shared, Join(Force));
    assert Last(t') == State(s.shared, s.procs + [begun.(pc := Join(Force))]);
    var waiting := Proc(c, Await(Force, n + 1), None, false);
    assert Last(t').procs[n := waiting] + [Proc(c, TaskQueued(true), None, false)] == Queued(s, c).procs;
    Extend(w, t', Advance(n, Proceed), Queued(s, c));
    t' := t' + [Queued(s, c)];
  }

  lemma ReachDecided(w: Wiring, t: seq<State>, c: nat, stored: Option<Snapshot>) returns (t': seq<State>)
    requires Run(w, t) && RootsInRange(w, Last(t)) && Loads(w, Last(t).shared, c, stored)
    requires !Flagged(w, Last(t).shared, c) && c !in Last(t).shared.inFlight
    requires Free(w, Last(t), SessionLock(w.roots[c].coordination))
    ensures Run(w, t') && Last(t') == Decided(Last(t), c, stored)
  {
    hide Next, MoveClearing, MoveCleanup, MoveCaller, MoveComponent, Wipeable;
    var s, lock := Last(t), SessionLock(w.roots[c].coordination);
    var n := |s.procs|;
    t' := ReachQueued(w, t, c);
    var queued := Last(t');
    forall q | 0 <= q < |queued.procs| ensures lock !in Held(w, queued.procs[q]) {
      if q < n {
        assert queued.procs[q] == s.procs[q];
      }
    }
    t' := Locking(w, t', n + 1, lock, TaskLoading(true));
    t' := Plain(w, t', n + 1, Proceed, queued.shared, TaskDeciding(true, stored));
  }

  // ---------- A replayed refresh token ----------

  /** Two forced refreshes in a row, by different clients that load the same snapshot. */
  lemma ReachBothDecided(w: Wiring, a: nat, b: nat, stored: Snapshot) returns (t: seq<State>)
    requires a < |w.roots| && b < |w.roots| && a != b
    requires HomeOf(w.roots[a]) == HomeOf(w.roots[b]) && w.roots[a].coordination != w.roots[b].coordination
    requires stored == Snapshot(KeyOf(w.roots[a]), 0)
    ensures Run(w, t)
    ensures var sh := Start(map[w.roots[a].store := stored], [HomeOf(w.roots[a])]).shared;
            Last(t) == State(sh.(inFlight := map[a := 1, b := 3]),
                             [Proc(a, Await(Force, 1), None, false), Proc(a, TaskDeciding(true, Some(stored)), None, false),
                              Proc(b, Await(Force, 3), None, false), Proc(b, TaskDeciding(true, Some(stored)), None, false)])
  {
    var s := Start(map[w.roots[a].store := stored], [HomeOf(w.roots[a])]);
    t := [s];
    t := ReachDecided(w, t, a, Some(stored));
    var s1 := Last(t);
    assert s1.procs == [Proc(a, Await(Force, 1), None, false), Proc(a, TaskDeciding(true, Some(stored)), None, false)];
    t := ReachDecided(w, t, b, Some(stored));
    assert Last(t).shared.inFlight == map[a := 1, b := 3];
  }

  /** A task that decides to refresh what it loaded and obtains the successor. */
  lemma ReachRenewed(w: Wiring, t: seq<State>, p: nat, stored: Snapshot) returns (t': seq<State>)
    requires Run(w, t) && RootsInRange(w, Last(t)) && p < |Last(t).procs|
    requires Last(t).procs[p].pc == TaskDeciding(true, Some(stored))
    ensures Run(w, t')
    ensures var sh, root := Last(t).shared, w.roots[Last(t).procs[p].root];
            var pending := TaskPersist(Snapshot(KeyOf(root), |sh.issued|), Some(stored.generation));
            Last(t') == State(sh.(issued := sh.issued + [HomeOf(root)]),
                              Last(t).procs[p := Last(t).procs[p].(pc := pending)])
  {
    var s := Last(t);
    var root := w.roots[s.procs[p].root];
    t' := Plain(w, t, p, Renewable, s.shared, TaskRefreshing(stored));
    t' := Plain(w, t', p, Proceed, s.shared.(issued := s.shared.issued + [HomeOf(root)]),
                TaskPersist(Snapshot(KeyOf(root), |s.shared.issued|), Some(stored.generation)));
  }

  /** A task with a pending grant takes the free identity lock. */
  lemma ReachSaving(w: Wiring, t: seq<State>, p: nat, grant: Snapshot, prior: Option<nat>) returns (t': seq<State>)
    requires Run(w, t) && RootsInRange(w, Last(t)) && p < |Last(t).procs|
    requires Last(t).procs[p].pc == TaskPersist(grant, prior)
    requires var key := KeyOf(w.roots[Last(t).procs[p].root]);
             key !in Last(t).shared.retired && Free(w, Last(t), StateLock(key))
    ensures Run(w, t')
    ensures Last(t') == State(Last(t).shared, Last(t).procs[p := Last(t).procs[p].(pc := TaskSaving(grant, prior))])
  {
    t' := Locking(w, t, p, StateLock(KeyOf(w.roots[Last(t).procs[p].root])), TaskSaving(grant, prior));
  }

  lemma ReachSaved(w: Wiring, t: seq<State>, p: nat, grant: Snapshot, prior: Option<nat>) returns (t': seq<State>)
    requires Run(w, t) && RootsInRange(w, Last(t)) && p < |Last(t).procs|
    requires Last(t).procs[p].pc == TaskSaving(grant, prior)
    ensures Run(w, t')
    ensures var sh, store := Last(t).shared, w.roots[Last(t).procs[p].root].store;
            Last(t') == State(
              sh.(stores := sh.stores[store := grant],
                  superseded := sh.superseded + (if prior.Some? then {prior.value} else {})),
              Last(t).procs[p := Last(t).procs[p].(pc := TaskSaved(grant))])
  {
    var sh, store := Last(t).shared, w.roots[Last(t).procs[p].root].store;
    t' := Plain(w, t, p, Proceed,
                sh.(stores := sh.stores[store := grant],
                    superseded := sh.superseded + (if prior.Some? then {prior.value} else {})),
                TaskSaved(grant));
  }

  /** Points at which no identity lock is held. */
  predicate Unlocked(proc: Proc) {
    && proc.outer.None?
    && (proc.pc.Await? || proc.pc.TaskDeciding? || proc.pc.TaskPersist? || proc.pc.TaskDone?)
  }

  lemma FreeIdentity(w: Wiring, s: State, key: Key)
    requires RootsInRange(w, s) && forall q :: 0 <= q < |s.procs| ==> Unlocked(s.procs[q])
    ensures Free(w, s, StateLock(key))
  {
  }

  /** From the point where two tasks have decided to refresh one snapshot, the first saves its successor. */
  lemma ReachSuperseded(w: Wiring, t: seq<State>, p: nat, stored: Snapshot) returns (t': seq<State>)
    requires Run(w, t) && RootsInRange(w, Last(t)) && p < |Last(t).procs|
    requires Last(t).procs[p].pc == TaskDeciding(true, Some(stored))
    requires KeyOf(w.roots[Last(t).procs[p].root]) !in Last(t).shared.retired
    requires forall q :: 0 <= q < |Last(t).procs| ==> Unlocked(Last(t).procs[q])
    ensures Run(w, t') && RootsInRange(w, Last(t')) && stored.generation in Last(t').shared.superseded
    ensures |Last(t').procs| == |Last(t).procs|
    ensures forall q :: 0 <= q < |Last(t).procs| && q != p ==> Last(t').procs[q] == Last(t).procs[q]
  {
    var s := Last(t);
    var key := KeyOf(w.roots[s.procs[p].root]);
    var grant, prior := Snapshot(key, |s.shared.issued|), Some(stored.generation);
    t' := ReachRenewed(w, t, p, stored);
    FreeIdentity(w, Last(t'), key);
    t' := ReachSaving(w, t', p, grant, prior);
    t' := ReachSaved(w, t', p, grant, prior);
  }

  /** A task that still holds a superseded snapshot replays it. */
  lemma ReplayNow(w: Wiring, t: seq<State>, p: nat, stored: Snapshot) returns (t': seq<State>)
    requires Run(w, t) && RootsInRange(w, Last(t)) && p < |Last(t).procs|
    requires Last(t).procs[p].pc == TaskDeciding(true, Some(stored))
    requires stored.generation in Last(t).shared.superseded
    ensures Run(w, t') && !NeverReplays(t')
  {
    t' := Plain(w, t, p, Renewable, Last(t).shared, TaskRefreshing(stored));
    assert Presents(t', |t| - 1, p, stored.generation);
  }

  /** Two clients with one store and one key but different coordination keys: one replays the other's token. */
  lemma ReplayHappens(w: Wiring, a: nat, b: nat) returns (t: seq<State>)
    requires a < |w.roots| && b < |w.roots|
    requires HomeOf(w.roots[a]) == HomeOf(w.roots[b]) && w.roots[a].coordination != w.roots[b].coordination
    ensures Run(w, t) && !NeverReplays(t)
  {
    var stored := Snapshot(KeyOf(w.roots[a]), 0);
    t := ReachBothDecided(w, a, b, stored);
    t := ReachSuperseded(w, t, 1, stored);
    t := ReplayNow(w, t, 3, stored);
  }

  /**
   * Exactly when clients with one store and one key share a coordination key, no run ever presents a
   * refresh token whose successor was saved.
   */
  lemma ReplaySafeIff(w: Wiring)
    ensures (forall t :: Run(w, t) ==> NeverReplays(t)) <==> OneSessionPerStore(w)
  {
    if OneSessionPerStore(w) {
      forall t | Run(w, t) ensures NeverReplays(t) {
        NoReplay(w, t);
      }
    } else {
      var a, b :| && 0 <= a < |w.roots| && 0 <= b < |w.roots| && HomeOf(w.roots[a]) == HomeOf(w.roots[b])
                  && w.roots[a].coordination != w.roots[b].coordination;
      var t := ReplayHappens(w, a, b);
    }
  }

  // ---------- A lost snapshot ----------

  /** A task with an empty store that establishes a session. */
  lemma ReachGranted(w: Wiring, t: seq<State>, p: nat) returns (t': seq<State>)
    requires Run(w, t) && RootsInRange(w, Last(t)) && p < |Last(t).procs|
    requires Last(t).procs[p].pc == TaskDeciding(true, None)
    ensures Run(w, t')
    ensures var sh, root := Last(t).shared, w.roots[Last(t).procs[p].root];
            var pending := TaskPersist(Snapshot(KeyOf(root), |sh.issued|), None);
            Last(t') == State(sh.(issued := sh.issued + [HomeOf(root)]),
                              Last(t).procs[p := Last(t).procs[p].(pc := pending)])
  {
    hide Next, MoveClearing, MoveCleanup, MoveCaller, MoveComponent, Wipeable;
    var s := Last(t);
    var root := w.roots[s.procs[p].root];
    t' := Plain(w, t, p, Expired, s.shared, TaskEstablishing);
    t' := Plain(w, t', p, Proceed, s.shared.(issued := s.shared.issued + [HomeOf(root)]),
                TaskPersist(Snapshot(KeyOf(root), |s.shared.issued|), None));
  }

  /** The same task, holding the identity lock to save its grant. */
  lemma ReachFreshSaving(w: Wiring, t: seq<State>, p: nat) returns (t': seq<State>)
    requires Run(w, t) && RootsInRange(w, Last(t)) && p < |Last(t).procs|
    requires Last(t).procs[p].pc == TaskDeciding(true, None) && Last(t).procs[p].outer.None?
    requires var key := KeyOf(w.roots[Last(t).procs[p].root]);
             key !in Last(t).shared.retired && Free(w, Last(t), StateLock(key))
    ensures Run(w, t')
    ensures var sh, root := Last(t).shared, w.roots[Last(t).procs[p].root];
            var saving := TaskSaving(Snapshot(KeyOf(root), |sh.issued|), None);
            Last(t') == State(sh.(issued := sh.issued + [HomeOf(root)]),
                              Last(t).procs[p := Last(t).procs[p].(pc := saving)])
  {
    hide Next, Move, Apply;
    var s := Last(t);
    var root := w.roots[s.procs[p].root];
    t' := ReachGranted(w, t, p);
    var pending := Last(t');
    forall q | 0 <= q < |pending.procs| ensures StateLock(KeyOf(root)) !in Held(w, pending.procs[q]) {
      if q != p {
        assert pending.procs[q] == s.procs[q];
      }
    }
    t' := ReachSaving(w, t', p, Snapshot(KeyOf(root), |s.shared.issued|), None);
  }

  /** The end of a task: its grant is saved and its locks are released. */
  lemma ReachDone(w: Wiring, t: seq<State>, p: nat, grant: Snapshot) returns (t': seq<State>)
    requires Run(w, t) && RootsInRange(w, Last(t)) && p < |Last(t).procs|
    requires Last(t).procs[p].pc == TaskSaving(grant, None) && !Flagged(w, Last(t).shared, Last(t).procs[p].root)
    ensures Run(w, t')
    ensures var sh, store := Last(t).shared, w.roots[Last(t).procs[p].root].store;
            Last(t') == State(sh.(stores := sh.stores[store := grant]),
                              Last(t).procs[p := Last(t).procs[p].(pc := TaskDone(grant.generation))])
  {
    t' := ReachSaved(w, t, p, grant, None);
    t' := Plain(w, t', p, Proceed, Last(t').shared, TaskDone(grant.generation));
  }

  /** A caller that has read the snapshot it wants to clear, in a store that clears in a second step. */
  lemma ReachCommitting(w: Wiring, t: seq<State>, c: nat, generation: nat) returns (t': seq<State>)
    requires Run(w, t) && RootsInRange(w, Last(t)) && c < |w.roots|
    requires KeyOf(w.roots[c]) !in Last(t).shared.retired && Free(w, Last(t), StateLock(KeyOf(w.roots[c])))
    requires w.roots[c].store !in w.bound && w.roots[c].store in Last(t).shared.stores
    requires Last(t).shared.stores[w.roots[c].store] == Snapshot(KeyOf(w.roots[c]), generation)
    ensures Run(w, t')
    ensures var target := Target(KeyOf(w.roots[c]), Some(generation));
            Last(t') == State(Last(t).shared,
                              Last(t).procs + [Proc(c, Clearing(Committing, target, Caller), None, false)])
  {
    var s, n := Last(t), |Last(t).procs|;
    var key, target := KeyOf(w.roots[c]), Target(KeyOf(w.roots[c]), Some(generation));
    var begun := Proc(c, Clearing(Wanting, target, Caller), None, false);
    var s1 := State(s.shared, s.procs + [begun]);
    Extend(w, t, Begin(begun), s1);
    forall q | 0 <= q < |s1.procs| ensures StateLock(key) !in Held(w, s1.procs[q]) {
      if q < n {
        assert s1.procs[q] == s.procs[q];
      }
    }
    t' := Locking(w, t + [s1], n, StateLock(key), Clearing(Holding, target, Caller));
    t' := Plain(w, t', n, Proceed, s.shared, Clearing(Committing, target, Caller));
    assert Last(t').procs == s.procs + [begun.(pc := Clearing(Committing, target, Caller))];
  }

  /** The second step of such a clear, after the store has come to hold a snapshot of another key. */
  lemma CommitNow(w: Wiring, t: seq<State>, p: nat, target: Target) returns (t': seq<State>)
    requires Run(w, t) && RootsInRange(w, Last(t)) && p < |Last(t).procs|
    requires Last(t).procs[p].pc == Clearing(Committing, target, Caller)
    requires var store := w.roots[Last(t).procs[p].root].store;
             store in Last(t).shared.stores && !Matches(Last(t).shared.stores[store], target)
    ensures Run(w, t') && !ClearsOnlyTargets(w, t')
  {
    var s, store := Last(t), w.roots[Last(t).procs[p].root].store;
    t' := Plain(w, t, p, Proceed, EmptyStore(s.shared, store), Ended);
    assert t'[|t| - 1] == s && t'[|t|] == Last(t');
    assert Apply(w, s, Advance(p, Proceed)) == Some(Last(t'));
    assert StepsAt(w, t', |t| - 1, p, Proceed);
    assert store !in Last(t').shared.stores;
    assert !ClearsExactly(w, s, p, Last(t'));
  }

  /** Client `b` is about to save its first grant. */
  lemma ReachSavingFirst(w: Wiring, b: nat) returns (t: seq<State>)
    requires b < |w.roots|
    ensures Run(w, t)
    ensures var grant := Snapshot(KeyOf(w.roots[b]), 0);
            Last(t) == State(
              Start(map[], [HomeOf(w.roots[b])]).shared.(inFlight := map[b := 1]),
              [Proc(b, Await(Force, 1), None, false), Proc(b, TaskSaving(grant, None), None, false)])
  {
    hide Apply, Next, Move;
    t := [Start(map[], [])];
    t := ReachDecided(w, t, b, None);
    assert Last(t).procs == [Proc(b, Await(Force, 1), None, false), Proc(b, TaskDeciding(true, None), None, false)];
    t := ReachFreshSaving(w, t, 1);
    assert Last(t).shared == Start(map[], [HomeOf(w.roots[b])]).shared.(inFlight := map[b := 1]);
  }

  /** Client `b` is about to save, and then client `a`, which shares its store under another key, decides. */
  lemma ReachRivals(w: Wiring, a: nat, b: nat) returns (t: seq<State>)
    requires a < |w.roots| && b < |w.roots| && w.roots[a].store == w.roots[b].store
    requires KeyOf(w.roots[a]) != KeyOf(w.roots[b])
    ensures Run(w, t)
    ensures var grant := Snapshot(KeyOf(w.roots[b]), 0);
            Last(t) == State(
              Start(map[], [HomeOf(w.roots[b])]).shared.(inFlight := map[b := 1, a := 3]),
              [Proc(b, Await(Force, 1), None, false), Proc(b, TaskSaving(grant, None), None, false),
               Proc(a, Await(Force, 3), None, false), Proc(a, TaskDeciding(true, None), None, false)])
  {
    hide Apply, Next, Move;
    t := ReachSavingFirst(w, b);
    t := ReachDecided(w, t, a, None);
    assert Last(t).shared.inFlight == map[b := 1, a := 3];
  }

  /** Client `a` saves its own grant while the save of client `b` is still pending. */
  lemma ReachMine(w: Wiring, a: nat, b: nat) returns (t: seq<State>)
    requires a < |w.roots| && b < |w.roots| && w.roots[a].store == w.roots[b].store
    requires KeyOf(w.roots[a]) != KeyOf(w.roots[b])
    ensures Run(w, t) && Last(t).shared.retired == {}
    ensures Last(t).shared.stores == map[w.roots[a].store := Snapshot(KeyOf(w.roots[a]), 1)]
    ensures Last(t).procs ==
              [Proc(b, Await(Force, 1), None, false),
               Proc(b, TaskSaving(Snapshot(KeyOf(w.roots[b]), 0), None), None, false),
               Proc(a, Await(Force, 3), None, false), Proc(a, TaskDone(1), None, false)]
  {
    t := ReachRivals(w, a, b);
    t := ReachFreshSaving(w, t, 3);
    t := ReachDone(w, t, 3, Snapshot(KeyOf(w.roots[a]), 1));
  }

  /** Client `a` saves and starts to clear what it saved; client `b` saves in between. */
  lemma SnapshotIsLost(w: Wiring, a: nat, b: nat) returns (t: seq<State>)
    requires a < |w.roots| && b < |w.roots| && w.roots[a].store == w.roots[b].store
    requires KeyOf(w.roots[a]) != KeyOf(w.roots[b]) && w.roots[a].store !in w.bound
    ensures Run(w, t) && !ClearsOnlyTargets(w, t)
  {
    hide Apply, Next, Move, Run, ClearsOnlyTargets;
    t := ReachMine(w, a, b);
    t := ReachCommitting(w, t, a, 1);
    t := LoseNow(w, t, 1, 4, Snapshot(KeyOf(w.roots[b]), 0), Target(KeyOf(w.roots[a]), Some(1)));
  }

  /** A save that lands between the two steps of a clear is lost. */
  lemma LoseNow(w: Wiring, t: seq<State>, p: nat, q: nat, grant: Snapshot, target: Target) returns (t': seq<State>)
    requires Run(w, t) && RootsInRange(w, Last(t)) && p < |Last(t).procs| && q < |Last(t).procs| && p != q
    requires Last(t).procs[p].pc == TaskSaving(grant, None)
    requires Last(t).procs[q].pc == Clearing(Committing, target, Caller)
    requires w.roots[Last(t).procs[p].root].store == w.roots[Last(t).procs[q].root].store && !Matches(grant, target)
    ensures Run(w, t') && !ClearsOnlyTargets(w, t')
  {
    t' := ReachSaved(w, t, p, grant, None);
    t' := CommitNow(w, t', q, target);
  }

  // ---------- A wiped snapshot ----------

  /** A caller that wants to clear an earlier generation wipes the current one when the cipher throws. */
  lemma SnapshotIsWiped(w: Wiring, c: nat) returns (t: seq<State>)
    requires c < |w.roots| && w.roots[c].store in w.bound && w.roots[c].store in w.fragile
    ensures Run(w, t) && !ClearsOnlyTargets(w, t)
  {
    var store, key := w.roots[c].store, KeyOf(w.roots[c]);
    var s := Start(map[store := Snapshot(key, 0)], [HomeOf(w.roots[c])]);
    var begun := Proc(c, Clearing(Wanting, Target(key, Some(1)), Caller), None, false);
    var s1 := State(s.shared, [begun]);
    assert s.procs + [begun] == [begun];
    Extend(w, [s], Begin(begun), s1);
    t := Locking(w, [s, s1], 0, StateLock(key), begun.pc.(stage := Holding));
    t := WipeNow(w, t, 0);
  }

  /** The throwing call itself, in a clear whose target is not what the store holds. */
  lemma WipeNow(w: Wiring, t: seq<State>, p: nat) returns (t': seq<State>)
    requires Run(w, t) && RootsInRange(w, Last(t)) && p < |Last(t).procs|
    requires var pc, store := Last(t).procs[p].pc, w.roots[Last(t).procs[p].root].store;
             && pc.Clearing? && pc.stage.Holding? && Wipeable(w, Last(t).shared, store)
             && !Matches(Last(t).shared.stores[store], pc.target)
    ensures Run(w, t') && !ClearsOnlyTargets(w, t')
  {
    var s, store := Last(t), w.roots[Last(t).procs[p].root].store;
    t' := Plain(w, t, p, CipherFault, EmptyStore(s.shared, store), After(s.procs[p].pc.purpose, false));
    assert t'[|t| - 1] == s && t'[|t|] == Last(t');
    assert StepsAt(w, t', |t| - 1, p, CipherFault);
    assert store !in Last(t').shared.stores;
    assert !ClearsExactly(w, s, p, Last(t'));
  }

  /**
   * Exactly when no unbound store is shared by clients of different keys and no keystore or cipher call
   * throws during a load, every load and conditional clear in every run leaves its store alone or empties
   * it of precisely the snapshot it names.
   */
  lemma ClearSafeIff(w: Wiring)
    ensures (forall t :: Run(w, t) ==> ClearsOnlyTargets(w, t)) <==> UnboundStoresOwned(w) && NoFragileStores(w)
  {
    if !NoFragileStores(w) {
      var c :| 0 <= c < |w.roots| && w.roots[c].store in w.bound && w.roots[c].store in w.fragile;
      var t := SnapshotIsWiped(w, c);
    } else if UnboundStoresOwned(w) {
      forall t | Run(w, t) ensures ClearsOnlyTargets(w, t) {
        ClearsTheirTarget(w, t);
      }
    } else {
      var a, b :| && 0 <= a < |w.roots| && 0 <= b < |w.roots| && w.roots[a].store == w.roots[b].store
                  && w.roots[a].store !in w.bound && KeyOf(w.roots[a]) != KeyOf(w.roots[b]);
      var t := SnapshotIsLost(w, a, b);
    }
  }
}
