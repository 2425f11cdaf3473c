/** The lifecycle never deadlocks, a stopped worker ends within a bounded number of its own steps,
    and a shutdown ends under every scheduler. */
module LifecycleProgress {
  import opened History
  import opened Lifecycle
  import opened LifecycleSafety

  // ---------------------------------------------------------------- lock order

  datatype Lock = Ui | OfLeaf(m: Leaf)

  predicate HoldsLock(s: State, a: Agent, l: Lock) {
    match l
    case Ui => s.ui == Some(a)
    case OfLeaf(m) => m in s.leaves && s.leaves[m] == a
  }

  predicate WaitsFor(s: State, a: Agent, l: Lock) {
    match a
    case Main => if l.Ui? then s.mode == AsksUi else s.mode == AsksLeaf(l.m)
    case Thread(t) =>
      t < |s.workers| &&
      if l.Ui? then s.workers[t].pc.WantUi? && s.workers[t].leaf == NoLeaf
      else s.workers[t].leaf == Wants(l.m)
  }

  /** Places where the main thread is blocked in a join. */
  predicate AtJoin(pc: MainPc) {
    pc.ChangeJoin? || pc.DockJoin? || pc.QuitJoin? || pc.SlotJoin?
  }

  /** The mutexes nest only as `ncurses_mutex` outside one leaf: whoever waits for `ncurses_mutex`
      holds nothing, whoever waits for a leaf holds no leaf, and a join is made with nothing held. */
  lemma LockOrder(s: State, a: Agent, held: Lock)
    requires Reachable(s) && HoldsLock(s, a, held)
    ensures !WaitsFor(s, a, Ui)
    ensures forall m :: WaitsFor(s, a, OfLeaf(m)) ==> held == Ui
    ensures AtJoin(s.pc) ==> a != Main
  {
    ReachableInv(s);
    if a.Thread? && a.t < |s.workers| {
      assert WorkerOk(s, a.t, s.workers[a.t]);
    }
    if held.OfLeaf? {
      assert HolderOk(s, held.m);
    }
  }

  // ---------------------------------------------------------------- no deadlock

  /** Some step the agent itself can take, when it waits for nothing. */
  function OwnStep(s: State, a: Agent): Step {
    match a
    case Main => ByMain(MainMove(s))
    case Thread(t) => ByWorker(t, if t < |s.workers| then WorkerMove(s.workers[t]) else Begun)
  }

  function WorkerMove(x: Worker): WorkerStep {
    match x.leaf
    case Wants(_) => Take
    case Holds(_) => Drop
    case NoLeaf =>
      match x.pc
      case AwaitReady => SeeReady(0)
      case Begin(_) => Begun
      case CheckStop => SeeStop
      case CheckPaused => SeePaused(0, 0)
      case CheckShown => SeeShown(0, 0)
      case Collect(_, _) => Collected
      case WantUi(_) => TakeUi(0)
      case Drawing(_, _) => DropUi(0)
      case After(_, _) => Rest(0)
      case Waiting(_) => SeeStopWaiting
      case Probing(_, _) => Tick
      case Exited => SeeStop
  }

  function MainMove(s: State): MainStep {
    match s.mode
    case AsksUi => GetUi
    case AsksLeaf(_) => GetLeaf
    case HasLeaf(_) => GiveLeaf
    case HasUi => if s.pc.Deleting? then Advance(false, Network) else GiveUi
    case Plain => if s.pc == Idle then KeyTop else if s.pc.Deleting? then AskUi else Advance(false, Network)
  }

  /** A worker may always move unless it ended, waits for a mutex, or the dashboard is still starting. */
  lemma WorkerMoves(s: State, t: nat)
    requires Inv(s) && t < |s.workers| && s.workers[t].pc != Exited
    requires s.flags.ready || s.workers[t].pc != AwaitReady
    ensures WorkerEnabled(s, t, WorkerMove(s.workers[t])) ||
            (s.workers[t].leaf.Wants? && s.workers[t].leaf.m in s.leaves) ||
            (s.workers[t].pc.WantUi? && s.workers[t].leaf == NoLeaf && s.ui.Some?)
  {
    assert WorkerOk(s, t, s.workers[t]);
  }

  /** Whoever holds a leaf mutex can move at once. */
  lemma LeafHolderMoves(s: State, m: Leaf)
    requires Inv(s) && m in s.leaves
    ensures Enabled(s, OwnStep(s, s.leaves[m]))
  {
    assert HolderOk(s, m);
  }

  /** Whoever holds `ncurses_mutex` can move, or waits for a leaf whose holder can. */
  lemma UiHolderMoves(s: State)
    requires Inv(s) && s.ui.Some?
    ensures Enabled(s, OwnStep(s, s.ui.value)) ||
            exists m :: WaitsFor(s, s.ui.value, OfLeaf(m)) && m in s.leaves && Enabled(s, OwnStep(s, s.leaves[m]))
  {
    if s.ui.value.Thread? {
      var t := s.ui.value.t;
      var x := s.workers[t];
      assert WorkerOk(s, t, x);
      WorkerMoves(s, t);
      if x.leaf.Wants? && x.leaf.m in s.leaves {
        LeafHolderMoves(s, x.leaf.m);
        assert WaitsFor(s, s.ui.value, OfLeaf(x.leaf.m));
      }
    }
  }

  /** A chain of at most two mutexes leads from any live worker to an agent that can move. */
  lemma WaitChain(s: State, t: nat)
    requires Reachable(s) && t < |s.workers| && s.workers[t].pc != Exited && s.flags.ready
    ensures Enabled(s, OwnStep(s, Thread(t)))
            || (exists m :: WaitsFor(s, Thread(t), OfLeaf(m)) && m in s.leaves && Enabled(s, OwnStep(s, s.leaves[m])))
            || (WaitsFor(s, Thread(t), Ui) && s.ui.Some? &&
                (Enabled(s, OwnStep(s, s.ui.value)) ||
                 exists m :: WaitsFor(s, s.ui.value, OfLeaf(m)) && m in s.leaves && Enabled(s, OwnStep(s, s.leaves[m]))))
  {
    ReachableInv(s);
    WorkerMoves(s, t);
    var x := s.workers[t];
    if x.leaf.Wants? && x.leaf.m in s.leaves {
      LeafHolderMoves(s, x.leaf.m);
      assert WaitsFor(s, Thread(t), OfLeaf(x.leaf.m));
    } else if x.pc.WantUi? && x.leaf == NoLeaf && s.ui.Some? {
      UiHolderMoves(s);
    }
  }

  /** The worker the main thread's join is waiting for. */
  function JoinTarget(s: State): nat {
    match s.pc
    case QuitJoin(i) => i
    case DockJoin(_) => s.dock.tid
    case _ => if s.slot.tid.Some? then s.slot.tid.value else 0
  }

  /** A worker being joined exists, was told to stop, and may read its flags. */
  lemma JoinTargetStopped(s: State)
    requires Inv(s) && AtJoin(s.pc)
    ensures JoinTarget(s) < |s.workers| && Stopped(s, s.workers[JoinTarget(s)].role) && s.flags.ready
  {
  }

  /** The main thread may move unless it waits for a mutex or joins a live worker. */
  lemma MainMoves(s: State)
    requires Inv(s) && s.pc != Done
    ensures (exists m :: MainEnabled(s, m)) ||
            (s.mode == AsksUi && s.ui.Some?) || (s.mode.AsksLeaf? && s.mode.m in s.leaves) ||
            (AtJoin(s.pc) && s.mode == Plain && !HasExited(s, JoinTarget(s)))
  {
    var move := if s.mode == Plain && (s.pc == BootSlotSpawn || s.pc == ChangeSpawn) then Advance(false, Network)
                else MainMove(s);
    if !MainEnabled(s, move) && AtJoin(s.pc) {
      JoinTargetStopped(s);
    }
  }

  /** No reachable state before the end is a deadlock. */
  lemma NoDeadlock(s: State)
    requires Reachable(s) && s.pc != Done
    ensures exists step :: Enabled(s, step)
  {
    ReachableInv(s);
    MainMoves(s);
    if m :| MainEnabled(s, m) {
      assert Enabled(s, ByMain(m));
    } else if s.mode == AsksUi && s.ui.Some? {
      UiHolderMoves(s);
    } else if s.mode.AsksLeaf? && s.mode.m in s.leaves {
      LeafHolderMoves(s, s.mode.m);
    } else {
      JoinTargetStopped(s);
      WaitChain(s, JoinTarget(s));
    }
  }

  // ---------------------------------------------------------------- bounded stopping

  function FrameCost(f: nat, budget: nat): nat { if f == 0 then 0 else 9 * budget + 4 }

  function PcRank(pc: WorkerPc, budget: nat): nat {
    match pc
    case Exited => 0
    case CheckStop => 1
    case Waiting(_) => 2
    case Probing(_, n) => 3 + 3 * n
    case Begin(n) => 2 + 3 * n
    case AwaitReady => 3 * budget + 3
    case After(f, n) => FrameCost(f, budget) + 3 * n + 7
    case Drawing(f, n) => FrameCost(f, budget) + 3 * budget + 8 + 3 * n
    case WantUi(f) => FrameCost(f, budget) + 6 * budget + 9
    case Collect(f, n) => FrameCost(f, budget) + 6 * budget + 10 + 3 * n
    case CheckShown => 18 * budget + 15
    case CheckPaused => 18 * budget + 16
  }

  /** How many more steps of its own a stopped worker may take. */
  function Rank(x: Worker, budget: nat): nat {
    PcRank(x.pc, budget) + (match x.leaf case NoLeaf => 0 case Holds(_) => 1 case Wants(_) => 2)
  }

  function RankBound(budget: nat): nat { 18 * budget + 16 }

  lemma RankBounded(s: State, t: nat)
    requires Inv(s) && t < |s.workers|
    ensures Rank(s.workers[t], s.budget) <= RankBound(s.budget)
  {
    var x := s.workers[t];
    assert WorkerOk(s, t, x);
  }

  lemma LeafStepDescends(s: State, t: nat, w: WorkerStep)
    requires WorkerEnabled(s, t, w) && (w.Ask? || w.Take? || w.Drop?)
    ensures Rank(DoWorker(s, t, w).workers[t], s.budget) < Rank(s.workers[t], s.budget)
  {
  }

  lemma LoopStepDescends(s: State, t: nat, w: WorkerStep)
    requires WorkerEnabled(s, t, w) && !w.Ask? && !w.Take? && !w.Drop?
    requires PcOk(s.workers[t].pc, s.budget) && Stopped(s, s.workers[t].role)
    ensures PcRank(NextPc(s, s.workers[t], w), s.budget) < PcRank(s.workers[t].pc, s.budget)
  {
  }

  /** Every own step of a stopped worker brings it closer to its end. */
  lemma StoppedStepDescends(s: State, t: nat, w: WorkerStep)
    requires Inv(s) && WorkerEnabled(s, t, w) && Stopped(s, s.workers[t].role)
    ensures Rank(DoWorker(s, t, w).workers[t], s.budget) < Rank(s.workers[t], s.budget)
  {
    assert WorkerOk(s, t, s.workers[t]);
    if w.Ask? || w.Take? || w.Drop? {
      LeafStepDescends(s, t, w);
    } else {
      LoopStepDescends(s, t, w);
    }
  }

  /** The main thread may start a worker, but changes none. */
  predicate KeepsWorkers(s: State, s': State) {
    s.workers <= s'.workers && s'.budget == s.budget
  }

  lemma StartsKeepWorkers(s: State, choice: bool, kind: Kind)
    ensures KeepsWorkers(s, DoBoot(s, choice, kind)) && KeepsWorkers(s, DoChange(s, choice, kind))
  {
  }

  lemma LayoutKeepsWorkers(s: State, choice: bool)
    ensures KeepsWorkers(s, DoLayout(s, choice)) && KeepsWorkers(s, DoJoin(s))
  {
  }

  lemma AdvanceKeepsWorkers(s: State, choice: bool, kind: Kind)
    ensures KeepsWorkers(s, DoAdvance(s, choice, kind))
  {
    if Booting(s.pc) || Changing(s.pc) {
      StartsKeepWorkers(s, choice, kind);
    } else if LayingOut(s.pc) || Joining(s.pc) {
      LayoutKeepsWorkers(s, choice);
    }
  }

  lemma MainKeepsWorkers(s: State, m: MainStep)
    requires MainEnabled(s, m)
    ensures KeepsWorkers(s, DoMain(s, m))
  {
    if m.Advance? {
      AdvanceKeepsWorkers(s, m.choice, m.kind);
    }
  }

  lemma StepKeepsOthers(s: State, step: Step, t: nat)
    requires Enabled(s, step) && t < |s.workers|
    ensures t < |Do(s, step).workers| && Do(s, step).workers[t].role == s.workers[t].role
    ensures (step.ByMain? || step.t != t) ==> Do(s, step).workers[t] == s.workers[t]
    ensures Do(s, step).budget == s.budget
  {
    if step.ByMain? {
      MainKeepsWorkers(s, step.m);
    }
  }

  lemma ExitedIsStill(s: State, step: Step, t: nat)
    requires Inv(s) && Enabled(s, step) && HasExited(s, t)
    ensures HasExited(Do(s, step), t) && !(step.ByWorker? && step.t == t)
  {
    assert WorkerOk(s, t, s.workers[t]);
    StepKeepsOthers(s, step, t);
  }

  /** A stopped worker stays stopped until it has ended. */
  lemma StopPersists(s: State, step: Step, t: nat)
    requires Inv(s) && Enabled(s, step) && t < |s.workers| && Stopped(s, s.workers[t].role)
    ensures t < |Do(s, step).workers|
    ensures HasExited(s, t) || Stopped(Do(s, step), Do(s, step).workers[t].role)
  {
    WhereFlagsAreLowered(s, step);
    LoweringFindsNoLiveWorker(s, step, t);
    StepKeepsOthers(s, step, t);
  }

  function Actor(step: Step): Agent {
    match step
    case ByMain(_) => Main
    case ByWorker(t, _) => Thread(t)
  }

  /** How many steps of a run are this agent's own. */
  function OwnSteps(run: seq<Step>, a: Agent): nat {
    if run == [] then 0 else (if Actor(run[0]) == a then 1 else 0) + OwnSteps(run[1..], a)
  }

  lemma {:induction false} ExitedTakesNoStep(s: State, run: seq<Step>, t: nat)
    requires Inv(s) && ValidRun(s, run) && HasExited(s, t)
    ensures OwnSteps(run, Thread(t)) == 0
    decreases |run|
  {
    if run != [] {
      ExitedIsStill(s, run[0], t);
      StepKeepsInv(s, run[0]);
      ExitedTakesNoStep(Do(s, run[0]), run[1..], t);
    }
  }

  lemma {:induction false} StoppedRunIsShort(s: State, run: seq<Step>, t: nat)
    requires Inv(s) && ValidRun(s, run) && t < |s.workers| && Stopped(s, s.workers[t].role)
    ensures OwnSteps(run, Thread(t)) <= Rank(s.workers[t], s.budget)
    decreases |run|
  {
    if run != [] {
      if HasExited(s, t) {
        ExitedTakesNoStep(s, run, t);
      } else {
        StepKeepsInv(s, run[0]);
        StepKeepsOthers(s, run[0], t);
        StopPersists(s, run[0], t);
        if run[0].ByWorker? && run[0].t == t {
          StoppedStepDescends(s, t, run[0].w);
        }
        StoppedRunIsShort(Do(s, run[0]), run[1..], t);
      }
    }
  }

  /** In any interleaving, a worker that was told to stop takes at most `RankBound` more steps. */
  lemma StoppedWorkerEnds(s: State, run: seq<Step>, t: nat)
    requires Reachable(s) && ValidRun(s, run) && t < |s.workers| && Stopped(s, s.workers[t].role)
    ensures OwnSteps(run, Thread(t)) <= RankBound(s.budget)
  {
    ReachableInv(s);
    RankBounded(s, t);
    StoppedRunIsShort(s, run, t);
  }

  /** Every worker the main thread joins was told to stop, so its join returns after a bounded number
      of that worker's own steps. */
  lemma JoinTargetEnds(s: State, run: seq<Step>)
    requires Reachable(s) && AtJoin(s.pc) && ValidRun(s, run)
    ensures JoinTarget(s) < |s.workers| && OwnSteps(run, Thread(JoinTarget(s))) <= RankBound(s.budget)
  {
    ReachableInv(s);
    JoinTargetStopped(s);
    StoppedWorkerEnds(s, run, JoinTarget(s));
  }

  // ---------------------------------------------------------------- shutdown

  function Stage(deleted: bool, mode: MainMode): nat {
    match mode
    case Plain => if deleted then 1 else 5
    case AsksUi => 4
    case _ => if deleted then 2 else 3
  }

  /** How many more steps the shutting-down main thread may take. */
  function MainRank(pc: MainPc, mode: MainMode): int {
    match pc
    case QuitJoin(i) => 38 - i
    case DockStop(_) => 34
    case DockJoin(_) => 33
    case Deleting(DockWindow(_)) => 27 + Stage(false, mode)
    case Deleted(DockWindow(_)) => 27 + Stage(true, mode)
    case SlotStop => 27
    case SlotJoin => 26
    case Deleting(SlotWindow) => 20 + Stage(false, mode)
    case Deleted(SlotWindow) => 20 + Stage(true, mode)
    case Deleting(TopWindow(i)) => (3 - i) * 5 + Stage(false, mode)
    case Deleted(TopWindow(i)) => (3 - i) * 5 + Stage(true, mode)
    case _ => 0
  }

  function SumRanks(workers: seq<Worker>, budget: nat): nat {
    if workers == [] then 0 else Rank(workers[0], budget) + SumRanks(workers[1..], budget)
  }

  lemma {:induction false} SumRanksUpdate(workers: seq<Worker>, t: nat, x: Worker, budget: nat)
    requires t < |workers|
    ensures SumRanks(workers[t := x], budget) == SumRanks(workers, budget) - Rank(workers[t], budget) + Rank(x, budget)
  {
    if t == 0 {
      assert workers[0 := x][1..] == workers[1..];
    } else {
      assert workers[t := x][1..] == workers[1..][t - 1 := x];
      SumRanksUpdate(workers[1..], t - 1, x, budget);
    }
  }

  /** What is left to do once the shutdown began: the main thread's own steps and every worker's. */
  function Remaining(s: State): int {
    MainRank(s.pc, s.mode) + SumRanks(s.workers, s.budget)
  }

  lemma JoinDescends(s: State, choice: bool, kind: Kind)
    requires MainOk(s) && s.flags.stop && MainEnabled(s, Advance(choice, kind)) && Joining(s.pc)
    ensures DoJoin(s).flags == s.flags && DoJoin(s).workers == s.workers && DoJoin(s).budget == s.budget
    ensures 0 <= MainRank(DoJoin(s).pc, DoJoin(s).mode) < MainRank(s.pc, s.mode)
  {
  }

  lemma CloseDescends(s: State, choice: bool, kind: Kind)
    requires MainOk(s) && s.flags.stop && MainEnabled(s, Advance(choice, kind)) && !Joining(s.pc)
    ensures var s' := DoAdvance(s, choice, kind);
      && s'.flags == s.flags && s'.workers == s.workers && s'.budget == s.budget
      && 0 <= MainRank(s'.pc, s'.mode) < MainRank(s.pc, s.mode)
  {
    assert s.pc.Deleting? || s.pc.Deleted?;
  }

  lemma MainShutdownDescends(s: State, m: MainStep)
    requires Inv(s) && s.flags.stop && MainEnabled(s, m)
    ensures DoMain(s, m).flags.stop && DoMain(s, m).workers == s.workers && DoMain(s, m).budget == s.budget
    ensures 0 <= MainRank(DoMain(s, m).pc, DoMain(s, m).mode) < MainRank(s.pc, s.mode)
  {
    if m.Advance? {
      if Joining(s.pc) {
        JoinDescends(s, m.choice, m.kind);
      } else {
        CloseDescends(s, m.choice, m.kind);
      }
    } else {
      assert Quitting(s.pc) && !Interactive(s.pc);
    }
  }

  lemma RemainingNonNegative(s: State)
    requires Inv(s)
    ensures 0 <= Remaining(s)
  {
  }

  /** After the stop request, every step of every thread uses up part of what remains. */
  lemma ShutdownDescends(s: State, step: Step)
    requires Inv(s) && s.flags.stop && Enabled(s, step)
    ensures Do(s, step).flags.stop && Inv(Do(s, step))
    ensures 0 <= Remaining(Do(s, step)) < Remaining(s)
  {
    StepKeepsInv(s, step);
    RemainingNonNegative(Do(s, step));
    match step
    case ByMain(m) => MainShutdownDescends(s, m);
    case ByWorker(t, w) =>
      StoppedStepDescends(s, t, w);
      SumRanksUpdate(s.workers, t, DoWorker(s, t, w).workers[t], s.budget);
      assert DoWorker(s, t, w).workers == s.workers[t := DoWorker(s, t, w).workers[t]];
  }

  lemma {:induction false} ShutdownRunIsShort(s: State, run: seq<Step>)
    requires Inv(s) && s.flags.stop && ValidRun(s, run)
    ensures |run| <= Remaining(s) && Inv(End(s, run)) && End(s, run).flags.stop
    decreases |run|
  {
    RemainingNonNegative(s);
    if run != [] {
      ShutdownDescends(s, run[0]);
      ShutdownRunIsShort(Do(s, run[0]), run[1..]);
    }
  }

  /** Everything is wound down: no window, no live worker, no mutex held. */
  predicate WoundDown(s: State) {
    && s.pc == Done
    && s.wins.live == {}
    && (forall t :: 0 <= t < |s.workers| ==> s.workers[t].pc == Exited)
    && s.ui == None && s.leaves == map[]
  }

  lemma HoldersLive(s: State)
    requires Inv(s)
    ensures s.ui.Some? && s.ui.value.Thread? ==> !HasExited(s, s.ui.value.t)
    ensures forall m :: m in s.leaves && s.leaves[m].Thread? ==> !HasExited(s, s.leaves[m].t)
  {
    if s.ui.Some? && s.ui.value.Thread? {
      assert WorkerOk(s, s.ui.value.t, s.workers[s.ui.value.t]);
    }
    forall m | m in s.leaves && s.leaves[m].Thread?
      ensures !HasExited(s, s.leaves[m].t)
    {
      assert HolderOk(s, m);
      assert WorkerOk(s, s.leaves[m].t, s.workers[s.leaves[m].t]);
    }
  }

  lemma DoneIsWoundDown(s: State)
    requires Inv(s) && s.pc == Done
    ensures WoundDown(s)
  {
    forall t | 0 <= t < |s.workers|
      ensures HasExited(s, t)
    {
      assert WorkerOk(s, t, s.workers[t]);
      assert s.workers[t].pc != Exited ==> Recorded(s.pc, s.slot, s.dock, t, s.workers[t]);
    }
    HoldersLive(s);
    assert forall a :: s.ui == Some(a) ==> a.Thread?;
    assert forall m :: m in s.leaves ==> HolderOk(s, m);
  }

  lemma ReachableStep(s: State, step: Step)
    requires Reachable(s) && Enabled(s, step)
    ensures Reachable(Do(s, step))
  {
    var budget, showTop, run :| ValidRun(Init(budget, showTop), run) && End(Init(budget, showTop), run) == s;
    RunExtends(Init(budget, showTop), run, step);
    assert ValidRun(Init(budget, showTop), run + [step]);
  }

  lemma {:induction false} RunExtends(s: State, run: seq<Step>, step: Step)
    requires ValidRun(s, run) && Enabled(End(s, run), step)
    ensures ValidRun(s, run + [step]) && End(s, run + [step]) == Do(End(s, run), step)
    decreases |run|
  {
    if run == [] {
      assert [step][1..] == [];
      assert run + [step] == [step];
    } else {
      assert (run + [step])[1..] == run[1..] + [step];
      RunExtends(Do(s, run[0]), run[1..], step);
    }
  }

  lemma {:induction false} ReachableRun(s: State, run: seq<Step>)
    requires Reachable(s) && ValidRun(s, run)
    ensures Reachable(End(s, run))
    decreases |run|
  {
    if run != [] {
      ReachableStep(s, run[0]);
      ReachableRun(Do(s, run[0]), run[1..]);
    }
  }

  /** Shutdown, under every scheduler and without any fairness: after the stop request a run has at
      most `Remaining` steps, and where no thread can step any more everything is wound down. */
  lemma ShutdownCompletes(s: State, run: seq<Step>)
    requires Reachable(s) && s.flags.stop && ValidRun(s, run)
    ensures |run| <= Remaining(s)
    ensures (exists step :: Enabled(End(s, run), step)) || WoundDown(End(s, run))
  {
    ReachableInv(s);
    ShutdownRunIsShort(s, run);
    ReachableRun(s, run);
    if End(s, run).pc == Done {
      DoneIsWoundDown(End(s, run));
    } else {
      NoDeadlock(End(s, run));
    }
  }

  // ---------------------------------------------------------------- the model runs

  lemma StartIsReachable(budget: nat, showTop: bool)
    ensures Reachable(Init(budget, showTop))
  {
    assert ValidRun(Init(budget, showTop), []);
  }

  lemma MainStepIsReachable(s: State, m: MainStep) returns (s': State)
    requires Reachable(s) && MainEnabled(s, m)
    ensures s' == DoMain(s, m) && Reachable(s')
  {
    s' := Do(s, ByMain(m));
    ReachableStep(s, ByMain(m));
  }

  lemma WorkerStepIsReachable(s: State, t: nat, w: WorkerStep) returns (s': State)
    requires Reachable(s) && WorkerEnabled(s, t, w)
    ensures s' == DoWorker(s, t, w) && Reachable(s')
  {
    s' := Do(s, ByWorker(t, w));
    ReachableStep(s, ByWorker(t, w));
  }

  /** The start-up order ends in a ready dashboard with all four top workers. */
  lemma ReadyIsReachable(budget: nat) returns (s: State)
    ensures Reachable(s) && s.pc == Idle && s.mode == Plain && s.flags == Flags(true, false, false, true)
    ensures |s.workers| == 5 && s.workers[0] == NewWorker(Top(0), SystemInfo, 0) && s.ui == None && s.budget == budget
  {
    var next := Advance(false, Network);
    StartIsReachable(budget, true);
    s := MainStepIsReachable(Init(budget, true), next);
    s := MainStepIsReachable(s, next);
    s := MainStepIsReachable(s, next);
    s := MainStepIsReachable(s, next);
    s := MainStepIsReachable(s, next);
    s := MainStepIsReachable(s, next);
    s := MainStepIsReachable(s, next);
    s := MainStepIsReachable(s, next);
  }

  /** Workers do get to draw: the safety of draws is not an empty statement. */
  lemma DrawIsReachable(budget: nat) returns (s: State)
    requires budget > 0
    ensures Reachable(s) && WorkerEnabled(s, 0, Draw)
  {
    s := ReadyIsReachable(budget);
    s := WorkerStepIsReachable(s, 0, SeeReady(0));
    s := WorkerStepIsReachable(s, 0, Begun);
    s := WorkerStepIsReachable(s, 0, SeeStop);
    s := WorkerStepIsReachable(s, 0, SeePaused(0, 0));
    s := WorkerStepIsReachable(s, 0, SeeShown(0, 0));
    s := WorkerStepIsReachable(s, 0, Collected);
    s := WorkerStepIsReachable(s, 0, TakeUi(budget));
  }
}
