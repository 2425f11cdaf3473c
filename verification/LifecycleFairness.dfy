/** Every join returns when the scheduler is strongly fair: a worker that can act again and again does act. */
module LifecycleFairness {
  import opened History
  import opened Lifecycle
  import opened LifecycleSafety
  import opened LifecycleProgress
  import opened LifecycleJoins

  /** An endless run: its states and its steps. */
  ghost predicate IsSchedule(st: nat -> State, act: nat -> Step) {
    forall i: nat :: Enabled(st(i), act(i)) && st(i + 1) == Do(st(i), act(i))
  }

  predicate Acts(act: nat -> Step, i: nat, t: nat) {
    Actor(act(i)) == Thread(t)
  }

  ghost predicate CanAct(s: State, t: nat) {
    exists w :: WorkerEnabled(s, t, w)
  }

  /** From `i` on the worker can never act. */
  ghost predicate StuckFrom(st: nat -> State, i: nat, t: nat) {
    forall j: nat :: j >= i ==> !CanAct(st(j), t)
  }

  ghost predicate ActsOrIsStuck(st: nat -> State, act: nat -> Step, t: nat, i: nat) {
    exists k: nat :: k >= i && (Acts(act, k, t) || StuckFrom(st, k, t))
  }

  /** Every worker acts again and again, unless from some moment on it never can. */
  ghost predicate Fair(st: nat -> State, act: nat -> Step) {
    forall t: nat, i: nat :: ActsOrIsStuck(st, act, t, i)
  }

  // ---------------------------------------------------------------- a join that never returns

  /** A fair schedule that starts in a join whose worker never ends; the lemmas below refute it. */
  ghost predicate Hangs(st: nat -> State, act: nat -> Step) {
    && IsSchedule(st, act) && Fair(st, act) && Inv(st(0)) && AtJoin(st(0).pc)
    && forall n: nat :: !HasExited(st(n), JoinTarget(st(0)))
  }

  /** Meanwhile the main thread stays in its join, holding nothing. */
  lemma {:induction false} StaysInJoin(st: nat -> State, act: nat -> Step, n: nat)
    requires Hangs(st, act)
    ensures Inv(st(n)) && SameMainPart(st(0), st(n))
  {
    if n > 0 {
      StaysInJoin(st, act, n - 1);
      var s, step := st(n - 1), act(n - 1);
      assert Enabled(s, step) && st(n - 1 + 1) == Do(s, step);
      StepKeepsInv(s, step);
      JoinedStep(st(0), s, step);
      SameMainPartTwice(st(0), s, st(n));
    }
  }

  lemma JoinedStep(s0: State, s: State, step: Step)
    requires Inv(s0) && Inv(s) && AtJoin(s0.pc) && SameMainPart(s0, s) && !HasExited(s, JoinTarget(s0)) && Enabled(s, step)
    ensures step.ByWorker? && SameMainPart(s, Do(s, step)) && s.mode == Plain && s.flags.ready
  {
    JoinTargetStopped(s);
    if step.ByWorker? {
      WorkerStepIsQuiet(s, step.t, step.w);
    }
  }

  lemma PlainAndReady(st: nat -> State, act: nat -> Step, n: nat)
    requires Hangs(st, act)
    ensures Inv(st(n)) && st(n).mode == Plain && st(n).flags.ready && |st(n).workers| == |st(0).workers|
  {
    StaysInJoin(st, act, n);
    assert Enabled(st(n), act(n));
    JoinedStep(st(0), st(n), act(n));
  }

  /** A worker is the same until its first own step. */
  lemma {:induction false} SameUntilActs(st: nat -> State, act: nat -> Step, i: nat, n: nat, t: nat) returns (a: nat)
    requires Hangs(st, act) && i <= n && t < |st(0).workers|
    ensures i <= a <= n && t < |st(a).workers| && t < |st(i).workers| && st(a).workers[t] == st(i).workers[t]
    ensures a < n ==> Acts(act, a, t)
  {
    a := i;
    PlainAndReady(st, act, i);
    while a < n && !Acts(act, a, t)
      invariant i <= a <= n && t < |st(a).workers| && st(a).workers[t] == st(i).workers[t]
    {
      assert Enabled(st(a), act(a)) && st(a + 1) == Do(st(a), act(a));
      StepKeepsOthers(st(a), act(a), t);
      a := a + 1;
    }
  }

  lemma FairMoment(st: nat -> State, act: nat -> Step, i: nat, t: nat) returns (k: nat)
    requires Fair(st, act)
    ensures k >= i && (Acts(act, k, t) || StuckFrom(st, k, t))
  {
    assert ActsOrIsStuck(st, act, t, i);
    k :| k >= i && (Acts(act, k, t) || StuckFrom(st, k, t));
  }

  /** The worker's next step, or a moment from which on it is stuck as it is now. */
  lemma ActsOrStays(st: nat -> State, act: nat -> Step, i: nat, t: nat) returns (n: nat)
    requires Hangs(st, act) && t < |st(0).workers|
    ensures n >= i && t < |st(n).workers| && t < |st(i).workers| && st(n).workers[t] == st(i).workers[t]
    ensures Acts(act, n, t) || StuckFrom(st, n, t)
  {
    var k := FairMoment(st, act, i, t);
    n := SameUntilActs(st, act, i, k, t);
  }

  lemma NotStuck(st: nat -> State, i: nat, j: nat, t: nat, w: WorkerStep)
    requires j >= i && WorkerEnabled(st(j), t, w)
    ensures !StuckFrom(st, i, t)
  {
    assert CanAct(st(j), t);
  }

  /** A leaf mutex is given back. */
  lemma LeafComesFree(st: nat -> State, act: nat -> Step, i: nat, m: Leaf) returns (j: nat)
    requires Hangs(st, act)
    ensures j >= i && m !in st(j).leaves
  {
    PlainAndReady(st, act, i);
    if m !in st(i).leaves {
      return i;
    }
    assert HolderOk(st(i), m);
    var v := st(i).leaves[m].t;
    var n := ActsOrStays(st, act, i, v);
    PlainAndReady(st, act, n);
    assert WorkerOk(st(n), v, st(n).workers[v]);
    if StuckFrom(st, n, v) {
      NotStuck(st, n, n, v, Drop);
    }
    assert Enabled(st(n), act(n)) && st(n + 1) == Do(st(n), act(n));
    j := n + 1;
  }

  /** A worker that waits for a leaf mutex acts. */
  lemma WaiterActs(st: nat -> State, act: nat -> Step, i: nat, t: nat) returns (n: nat)
    requires Hangs(st, act) && t < |st(0).workers| && t < |st(i).workers|
    requires st(i).workers[t].leaf.Wants? && StuckFrom(st, i, t)
    ensures n >= i && t < |st(n).workers| && st(n).workers[t] == st(i).workers[t] && Acts(act, n, t)
  {
    var j := LeafComesFree(st, act, i, st(i).workers[t].leaf.m);
    n := SameUntilActs(st, act, i, j, t);
    if n == j {
      NotStuck(st, i, j, t, Take);
    }
  }

  /** A worker that waits for no mutex can move as long as it does not. */
  lemma FreeWorkerMoves(st: nat -> State, act: nat -> Step, i: nat, t: nat)
    requires Hangs(st, act) && t < |st(i).workers|
    requires st(i).workers[t].pc != Exited && !st(i).workers[t].leaf.Wants?
    requires !(st(i).workers[t].pc.WantUi? && st(i).workers[t].leaf == NoLeaf)
    ensures !StuckFrom(st, i, t)
  {
    PlainAndReady(st, act, i);
    WorkerMoves(st(i), t);
    NotStuck(st, i, i, t, WorkerMove(st(i).workers[t]));
  }

  /** A worker that does not wait for `ncurses_mutex` acts. */
  lemma UnblockedActs(st: nat -> State, act: nat -> Step, i: nat, t: nat) returns (n: nat)
    requires Hangs(st, act) && t < |st(0).workers| && t < |st(i).workers|
    requires st(i).workers[t].pc != Exited && !(st(i).workers[t].pc.WantUi? && st(i).workers[t].leaf == NoLeaf)
    ensures n >= i && t < |st(n).workers| && st(n).workers[t] == st(i).workers[t] && Acts(act, n, t)
  {
    n := ActsOrStays(st, act, i, t);
    if !Acts(act, n, t) {
      if st(n).workers[t].leaf.Wants? {
        n := WaiterActs(st, act, n, t);
      } else {
        FreeWorkerMoves(st, act, n, t);
      }
    }
  }

  /** Whoever holds `ncurses_mutex` acts. */
  lemma UiHolderActs(st: nat -> State, act: nat -> Step, i: nat, u: nat) returns (n: nat)
    requires Hangs(st, act) && st(i).ui == Some(Thread(u))
    ensures n >= i && Acts(act, n, u) && u < |st(n).workers| && u < |st(i).workers| && st(n).workers[u] == st(i).workers[u]
  {
    PlainAndReady(st, act, i);
    assert WorkerOk(st(i), u, st(i).workers[u]);
    n := UnblockedActs(st, act, i, u);
  }

  /** A step of the holder gives `ncurses_mutex` back or brings that closer. */
  lemma UiHolderStepped(st: nat -> State, act: nat -> Step, n: nat, u: nat, x: Worker)
    requires Hangs(st, act) && Acts(act, n, u) && u < |st(n).workers| && st(n).workers[u] == x && x.pc.Drawing?
    ensures st(n).ui == Some(Thread(u))
    ensures st(n + 1).ui == None || (st(n + 1).ui == Some(Thread(u)) &&
              HoldRank(st(n + 1), Thread(u), Ui) < HoldRank(st(n), Thread(u), Ui))
  {
    PlainAndReady(st, act, n);
    assert WorkerOk(st(n), u, st(n).workers[u]);
    assert Enabled(st(n), act(n)) && st(n + 1) == Do(st(n), act(n));
    WorkerUiStep(st(n), u, act(n).w);
  }

  /** `ncurses_mutex` is given back. */
  lemma {:induction false} UiComesFree(st: nat -> State, act: nat -> Step, i: nat) returns (j: nat)
    requires Hangs(st, act)
    ensures j >= i && st(j).ui == None
    decreases if st(i).ui.Some? then HoldRank(st(i), st(i).ui.value, Ui) else 0
  {
    PlainAndReady(st, act, i);
    if st(i).ui == None {
      return i;
    }
    var u := st(i).ui.value.t;
    assert WorkerOk(st(i), u, st(i).workers[u]);
    var n := UiHolderActs(st, act, i, u);
    UiHolderStepped(st, act, n, u, st(i).workers[u]);
    if st(n + 1).ui == None {
      j := n + 1;
    } else {
      j := UiComesFree(st, act, n + 1);
    }
  }

  /** A worker that waits for `ncurses_mutex` acts. */
  lemma UiWaiterActs(st: nat -> State, act: nat -> Step, i: nat, t: nat) returns (n: nat)
    requires Hangs(st, act) && t < |st(0).workers| && t < |st(i).workers|
    requires st(i).workers[t].pc.WantUi? && st(i).workers[t].leaf == NoLeaf && StuckFrom(st, i, t)
    ensures n >= i && t < |st(n).workers| && st(n).workers[t] == st(i).workers[t] && Acts(act, n, t)
  {
    var j := UiComesFree(st, act, i);
    n := SameUntilActs(st, act, i, j, t);
    if n == j {
      NotStuck(st, i, j, t, TakeUi(0));
    }
  }

  /** Every live worker acts. */
  lemma LiveActs(st: nat -> State, act: nat -> Step, i: nat, t: nat) returns (n: nat)
    requires Hangs(st, act) && t < |st(0).workers| && t < |st(i).workers| && st(i).workers[t].pc != Exited
    ensures n >= i && t < |st(n).workers| && st(n).workers[t] == st(i).workers[t] && Acts(act, n, t)
  {
    if st(i).workers[t].pc.WantUi? && st(i).workers[t].leaf == NoLeaf {
      n := ActsOrStays(st, act, i, t);
      if !Acts(act, n, t) {
        n := UiWaiterActs(st, act, n, t);
      }
    } else {
      n := UnblockedActs(st, act, i, t);
    }
  }

  /** The joined worker comes closer to its end with every step, so it cannot go on for ever. */
  lemma {:induction false} HangsNever(st: nat -> State, act: nat -> Step, i: nat)
    requires Hangs(st, act) && JoinTarget(st(0)) < |st(i).workers|
    ensures false
    decreases Rank(st(i).workers[JoinTarget(st(0))], st(0).budget)
  {
    var t := JoinTarget(st(0));
    StaysInJoin(st, act, i);
    JoinTargetStopped(st(0));
    assert !HasExited(st(i), t);
    var n := LiveActs(st, act, i, t);
    StaysInJoin(st, act, n);
    assert Enabled(st(n), act(n)) && st(n + 1) == Do(st(n), act(n));
    StoppedStepDescends(st(n), t, act(n).w);
    StaysInJoin(st, act, n + 1);
    HangsNever(st, act, n + 1);
  }

  /** In every strongly fair schedule, every join returns: whatever the other workers do, the worker that the main
      thread waits for ends. */
  lemma JoinReturns(st: nat -> State, act: nat -> Step)
    requires IsSchedule(st, act) && Fair(st, act) && Reachable(st(0)) && AtJoin(st(0).pc)
    ensures exists n: nat :: HasExited(st(n), JoinTarget(st(0)))
  {
    ReachableInv(st(0));
    if forall n: nat :: !HasExited(st(n), JoinTarget(st(0))) {
      JoinTargetStopped(st(0));
      HangsNever(st, act, 0);
    }
  }
}
