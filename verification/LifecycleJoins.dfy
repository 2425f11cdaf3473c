/** Mutexes are given back within a bounded number of their holder's own steps, and every join can return. */
module LifecycleJoins {
  import opened History
  import opened Lifecycle
  import opened LifecycleSafety
  import opened LifecycleProgress

  // ---------------------------------------------------------------- giving mutexes back

  /** At the start of the run or after some of its steps the agent does not hold the mutex. */
  predicate LetsGo(s: State, run: seq<Step>, a: Agent, l: Lock)
    requires ValidRun(s, run)
    decreases |run|
  {
    !HoldsLock(s, a, l) || (run != [] && LetsGo(Do(s, run[0]), run[1..], a, l))
  }

  function LeafCost(u: LeafUse): nat {
    match u
    case NoLeaf => 0
    case Holds(_) => 1
    case Wants(_) => 2
  }

  /** How many more steps of its own a holder may take before it gives the mutex back. */
  function HoldRank(s: State, a: Agent, l: Lock): nat {
    if l.OfLeaf? then 1
    else
      match a
      case Main => if s.pc.Deleting? then 2 else 1
      case Thread(t) =>
        if t < |s.workers| && s.workers[t].pc.Drawing? then 3 * s.workers[t].pc.n + LeafCost(s.workers[t].leaf) + 1 else 1
  }

  function HoldBound(budget: nat): nat {
    3 * budget + 3
  }

  lemma HoldRankBounded(s: State, a: Agent, l: Lock)
    requires Inv(s) && HoldsLock(s, a, l)
    ensures HoldRank(s, a, l) <= HoldBound(s.budget)
  {
    if l.Ui? && a.Thread? {
      assert WorkerOk(s, a.t, s.workers[a.t]);
    }
  }

  /** A worker's own step with a leaf mutex held is the one that gives it back. */
  lemma WorkerLeafStep(s: State, t: nat, w: WorkerStep, m: Leaf)
    requires Inv(s) && WorkerEnabled(s, t, w) && HoldsLock(s, Thread(t), OfLeaf(m))
    ensures !HoldsLock(DoWorker(s, t, w), Thread(t), OfLeaf(m))
  {
    assert HolderOk(s, m);
  }

  /** A worker's own step with `ncurses_mutex` held gives it back or brings that closer. */
  lemma WorkerUiStep(s: State, t: nat, w: WorkerStep)
    requires Inv(s) && WorkerEnabled(s, t, w) && HoldsLock(s, Thread(t), Ui)
    ensures HoldsLock(DoWorker(s, t, w), Thread(t), Ui) ==>
              HoldRank(DoWorker(s, t, w), Thread(t), Ui) < HoldRank(s, Thread(t), Ui)
  {
    assert WorkerOk(s, t, s.workers[t]);
  }

  /** The main thread gives back what it holds, after deleting the window it is deleting. */
  lemma MainLockStep(s: State, m: MainStep, l: Lock)
    requires Inv(s) && MainEnabled(s, m) && HoldsLock(s, Main, l)
    ensures HoldsLock(DoMain(s, m), Main, l) ==> HoldRank(DoMain(s, m), Main, l) < HoldRank(s, Main, l)
  {
    if l.OfLeaf? {
      assert HolderOk(s, l.m);
    }
  }

  lemma OwnLockStep(s: State, step: Step, l: Lock)
    requires Inv(s) && Enabled(s, step) && HoldsLock(s, Actor(step), l)
    ensures HoldsLock(Do(s, step), Actor(step), l) ==>
              HoldRank(Do(s, step), Actor(step), l) < HoldRank(s, Actor(step), l)
  {
    match step
    case ByMain(m) => MainLockStep(s, m, l);
    case ByWorker(t, w) =>
      if l.Ui? {
        WorkerUiStep(s, t, w);
      } else {
        WorkerLeafStep(s, t, w, l.m);
      }
  }

  lemma OtherLockStep(s: State, step: Step, a: Agent, l: Lock)
    requires Inv(s) && Enabled(s, step) && HoldsLock(s, a, l) && Actor(step) != a
    ensures HoldRank(Do(s, step), a, l) == HoldRank(s, a, l)
  {
    if a.Thread? {
      if l.OfLeaf? {
        assert HolderOk(s, l.m);
      } else {
        StepKeepsOthers(s, step, a.t);
      }
    }
  }

  lemma {:induction false} HolderLetsGo(s: State, run: seq<Step>, a: Agent, l: Lock)
    requires Inv(s) && ValidRun(s, run) && OwnSteps(run, a) >= HoldRank(s, a, l)
    ensures LetsGo(s, run, a, l)
    decreases |run|
  {
    if HoldsLock(s, a, l) {
      var s' := Do(s, run[0]);
      StepKeepsInv(s, run[0]);
      if HoldsLock(s', a, l) {
        if Actor(run[0]) == a {
          OwnLockStep(s, run[0], l);
        } else {
          OtherLockStep(s, run[0], a, l);
        }
        HolderLetsGo(s', run[1..], a, l);
      }
    }
  }

  /** In every interleaving, whoever holds a mutex, told to stop or not, has given it back by the time it took
      3 * budget + 3 steps of its own. */
  lemma EveryHolderLetsGo(s: State, run: seq<Step>, a: Agent, l: Lock)
    requires Reachable(s) && ValidRun(s, run) && HoldsLock(s, a, l) && OwnSteps(run, a) >= HoldBound(s.budget)
    ensures LetsGo(s, run, a, l)
  {
    ReachableInv(s);
    HoldRankBounded(s, a, l);
    HolderLetsGo(s, run, a, l);
  }

  // ---------------------------------------------------------------- joins

  /** Worker steps leave everything of the main thread alone, and every worker's role. */
  predicate SameMainPart(s: State, s': State) {
    && s'.pc == s.pc && s'.mode == s.mode && s'.flags == s.flags && s'.slot == s.slot && s'.dock == s.dock
    && s'.budget == s.budget && |s'.workers| == |s.workers|
    && forall t :: 0 <= t < |s.workers| ==> s'.workers[t].role == s.workers[t].role
  }

  lemma {:induction false} RunsJoin(s: State, a: seq<Step>, b: seq<Step>)
    requires ValidRun(s, a) && ValidRun(End(s, a), b)
    ensures ValidRun(s, a + b) && End(s, a + b) == End(End(s, a), b)
    decreases |a|
  {
    if a == [] {
      assert a + b == b;
    } else {
      assert (a + b)[1..] == a[1..] + b;
      RunsJoin(Do(s, a[0]), a[1..], b);
    }
  }

  lemma OneStep(s: State, step: Step)
    requires Enabled(s, step)
    ensures ValidRun(s, [step]) && End(s, [step]) == Do(s, step)
  {
    assert [step][1..] == [];
  }

  /** A run of worker steps that leads somewhere, followed by another one. */
  lemma Then(s: State, step: Step, more: seq<Step>) returns (run: seq<Step>)
    requires Enabled(s, step) && ValidRun(Do(s, step), more)
    ensures ValidRun(s, run) && End(s, run) == End(Do(s, step), more)
  {
    run := [step] + more;
    assert run[1..] == more;
  }

  lemma SameMainPartTwice(s: State, s1: State, s2: State)
    requires SameMainPart(s, s1) && SameMainPart(s1, s2)
    ensures SameMainPart(s, s2)
  {
  }

  lemma WorkerStepIsQuiet(s: State, t: nat, w: WorkerStep)
    requires WorkerEnabled(s, t, w)
    ensures SameMainPart(s, DoWorker(s, t, w)) && |DoWorker(s, t, w).workers| == |s.workers|
    ensures forall u :: 0 <= u < |s.workers| && u != t ==> DoWorker(s, t, w).workers[u] == s.workers[u]
  {
  }

  /** The holder of a leaf mutex, when the main thread holds none, gives it back in one step. */
  lemma LeafFreed(s: State, m: Leaf) returns (u: nat)
    requires Inv(s) && s.mode == Plain && m in s.leaves
    ensures WorkerEnabled(s, u, Drop) && s.workers[u].leaf == Holds(m)
    ensures Inv(DoWorker(s, u, Drop)) && m !in DoWorker(s, u, Drop).leaves && DoWorker(s, u, Drop).ui == s.ui
  {
    assert HolderOk(s, m);
    u := s.leaves[m].t;
    StepKeepsInv(s, ByWorker(u, Drop));
  }

  /** Nothing of the main thread changed, nor any worker that waits for `ncurses_mutex`. */
  predicate Quiet(s: State, s': State) {
    && SameMainPart(s, s')
    && forall t :: 0 <= t < |s.workers| && s.workers[t].pc.WantUi? && s.workers[t].leaf == NoLeaf ==>
         s'.workers[t] == s.workers[t]
  }

  lemma QuietTwice(s: State, s1: State, s2: State)
    requires Quiet(s, s1) && Quiet(s1, s2)
    ensures Quiet(s, s2)
  {
    SameMainPartTwice(s, s1, s2);
    forall t | 0 <= t < |s.workers| && s.workers[t].pc.WantUi? && s.workers[t].leaf == NoLeaf
      ensures s2.workers[t] == s.workers[t]
    {
      assert s1.workers[t] == s.workers[t];
    }
  }

  /** Whoever draws and does not wait for a taken leaf mutex makes a step towards giving `ncurses_mutex` back. */
  lemma UiHolderStep(s: State, u: nat) returns (w: WorkerStep)
    requires Inv(s) && s.ui == Some(Thread(u))
    requires s.workers[u].leaf.Wants? ==> s.workers[u].leaf.m !in s.leaves
    ensures WorkerEnabled(s, u, w) && Inv(DoWorker(s, u, w)) && Quiet(s, DoWorker(s, u, w))
    ensures DoWorker(s, u, w).ui == None || (DoWorker(s, u, w).ui == s.ui &&
              HoldRank(DoWorker(s, u, w), Thread(u), Ui) < HoldRank(s, Thread(u), Ui))
  {
    var x := s.workers[u];
    assert WorkerOk(s, u, x);
    w := if x.leaf.Wants? then Take else if x.leaf.Holds? then Drop else DropUi(0);
    StepKeepsInv(s, ByWorker(u, w));
    WorkerStepIsQuiet(s, u, w);
    WorkerUiStep(s, u, w);
  }

  /** Someone else holds the leaf mutex that the drawing worker waits for, and gives it back. */
  lemma LeafForUiHolder(s: State, u: nat) returns (v: nat)
    requires Inv(s) && s.mode == Plain && s.ui == Some(Thread(u))
    requires s.workers[u].leaf.Wants? && s.workers[u].leaf.m in s.leaves
    ensures v != u && WorkerEnabled(s, v, Drop) && Inv(DoWorker(s, v, Drop)) && Quiet(s, DoWorker(s, v, Drop))
    ensures var s' := DoWorker(s, v, Drop);
            s'.ui == s.ui && s'.workers[u] == s.workers[u] && s.workers[u].leaf.m !in s'.leaves
  {
    v := LeafFreed(s, s.workers[u].leaf.m);
    assert WorkerOk(s, u, s.workers[u]) && WorkerOk(s, v, s.workers[v]);
    WorkerStepIsQuiet(s, v, Drop);
  }

  /** Whoever draws can be brought to give `ncurses_mutex` back by worker steps alone, while every worker that
      waits for that mutex stays where it is. */
  lemma {:induction false} UiFreed(s: State) returns (run: seq<Step>)
    requires Inv(s) && s.mode == Plain
    ensures ValidRun(s, run) && Inv(End(s, run)) && Quiet(s, End(s, run)) && End(s, run).ui == None
    decreases if s.ui.Some? then HoldRank(s, s.ui.value, Ui) else 0, 1
  {
    if s.ui == None {
      return [];
    }
    var u := s.ui.value.t;
    if s.workers[u].leaf.Wants? && s.workers[u].leaf.m in s.leaves {
      var v := LeafForUiHolder(s, u);
      var s1 := DoWorker(s, v, Drop);
      run := UiFreedUnblocked(s1, u);
      QuietTwice(s, s1, End(s1, run));
      run := Then(s, ByWorker(v, Drop), run);
    } else {
      run := UiFreedUnblocked(s, u);
    }
  }

  lemma {:induction false} UiFreedUnblocked(s: State, u: nat) returns (run: seq<Step>)
    requires Inv(s) && s.mode == Plain && s.ui == Some(Thread(u))
    requires s.workers[u].leaf.Wants? ==> s.workers[u].leaf.m !in s.leaves
    ensures ValidRun(s, run) && Inv(End(s, run)) && Quiet(s, End(s, run)) && End(s, run).ui == None
    decreases HoldRank(s, Thread(u), Ui), 0
  {
    var w := UiHolderStep(s, u);
    var s1 := DoWorker(s, u, w);
    run := UiFreed(s1);
    QuietTwice(s, s1, End(s1, run));
    run := Then(s, ByWorker(u, w), run);
  }

  /** From any state, worker steps alone can bring a stopped worker to a step of its own. */
  lemma CanMove(s: State, t: nat) returns (run: seq<Step>, w: WorkerStep)
    requires Inv(s) && s.mode == Plain && s.flags.ready && t < |s.workers| && s.workers[t].pc != Exited
    ensures ValidRun(s, run) && Inv(End(s, run)) && SameMainPart(s, End(s, run))
    ensures End(s, run).workers[t] == s.workers[t] && WorkerEnabled(End(s, run), t, w)
  {
    WorkerMoves(s, t);
    var x := s.workers[t];
    w := WorkerMove(x);
    if WorkerEnabled(s, t, w) {
      run := [];
    } else if x.leaf.Wants? && x.leaf.m in s.leaves {
      var u := LeafFreed(s, x.leaf.m);
      WorkerStepIsQuiet(s, u, Drop);
      OneStep(s, ByWorker(u, Drop));
      run := [ByWorker(u, Drop)];
    } else {
      run := UiFreed(s);
    }
  }

  /** A stopped worker can be brought a step closer to its end by worker steps alone. */
  lemma CanStepTowardsEnd(s: State, t: nat) returns (run: seq<Step>)
    requires Inv(s) && s.mode == Plain && s.flags.ready && t < |s.workers| && s.workers[t].pc != Exited
    requires Stopped(s, s.workers[t].role)
    ensures ValidRun(s, run) && Inv(End(s, run)) && SameMainPart(s, End(s, run))
    ensures Rank(End(s, run).workers[t], s.budget) < Rank(s.workers[t], s.budget)
  {
    var before, w := CanMove(s, t);
    var s1 := End(s, before);
    StoppedStepDescends(s1, t, w);
    StepKeepsInv(s1, ByWorker(t, w));
    WorkerStepIsQuiet(s1, t, w);
    OneStep(s1, ByWorker(t, w));
    RunsJoin(s, before, [ByWorker(t, w)]);
    run := before + [ByWorker(t, w)];
    SameMainPartTwice(s, s1, End(s, run));
  }

  /** A stopped worker can be brought to its end by worker steps alone. */
  lemma {:induction false} CanEnd(s: State, t: nat) returns (run: seq<Step>)
    requires Inv(s) && s.mode == Plain && s.flags.ready && t < |s.workers| && Stopped(s, s.workers[t].role)
    ensures ValidRun(s, run) && SameMainPart(s, End(s, run)) && HasExited(End(s, run), t)
    decreases Rank(s.workers[t], s.budget)
  {
    if s.workers[t].pc == Exited {
      return [];
    }
    var before := CanStepTowardsEnd(s, t);
    var s1 := End(s, before);
    var more := CanEnd(s1, t);
    RunsJoin(s, before, more);
    SameMainPartTwice(s, s1, End(s1, more));
    run := before + more;
  }

  /** From every reachable state in which the main thread waits in a join, for a key or at the end, some run of the
      workers leads to the end of the joined worker, with the main thread still there and its join enabled. */
  lemma JoinCanReturn(s: State) returns (run: seq<Step>)
    requires Reachable(s) && AtJoin(s.pc)
    ensures ValidRun(s, run) && End(s, run).pc == s.pc && JoinTarget(End(s, run)) == JoinTarget(s)
    ensures HasExited(End(s, run), JoinTarget(s)) && MainEnabled(End(s, run), Advance(false, Network))
  {
    ReachableInv(s);
    JoinTargetStopped(s);
    run := CanEnd(s, JoinTarget(s));
  }
}
