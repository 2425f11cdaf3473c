/** What every step of the lifecycle keeps, and the safety of every run. */
module LifecycleSafety {
  import opened History
  import opened Lifecycle

  // ---------------------------------------------------------------- the invariant

  predicate Quitting(pc: MainPc) {
    match pc
    case QuitJoin(_) => true
    case DockStop(quit) => quit
    case DockJoin(quit) => quit
    case SlotStop => true
    case SlotJoin => true
    case Deleting(d) => d != DockWindow(false)
    case Deleted(d) => d != DockWindow(false)
    case Done => true
    case _ => false
  }

  /** The shutdown has joined the four top workers. */
  predicate TopsJoined(pc: MainPc) {
    Quitting(pc) && !pc.QuitJoin?
  }

  /** Top window `i` is still open at this place of the main thread. */
  predicate TopOpen(pc: MainPc, i: nat) {
    if pc.Deleting? && pc.d.TopWindow? then pc.d.i <= i
    else if pc.Deleted? && pc.d.TopWindow? then pc.d.i < i
    else pc != Done
  }

  /** A stretch's allowance never exceeds the budget and at most one extra frame follows. */
  predicate PcOk(pc: WorkerPc, budget: nat) {
    match pc
    case Begin(n) => n <= budget
    case Collect(f, n) => f <= 1 && n <= budget
    case WantUi(f) => f <= 1
    case Drawing(f, n) => f <= 1 && n <= budget
    case After(f, n) => f <= 1 && n <= budget
    case Probing(_, n) => n <= 1
    case _ => true
  }

  predicate UsesLeaves(pc: WorkerPc) {
    pc.Begin? || pc.Collect? || pc.Drawing? || pc.After? || pc.Probing?
  }

  /** A live worker is the one its pane has on record, and its window is that pane's. */
  predicate Recorded(pc: MainPc, slot: SlotRecord, dock: DockRecord, t: nat, x: Worker) {
    match x.role
    case Top(_) => !TopsJoined(pc) && (pc.QuitJoin? ==> pc.i <= t)
    case Slot => slot.tid == Some(t) && slot.win == Some(x.win)
    case Dock => dock.active && dock.tid == t && dock.win == Some(x.win)
  }

  /** What a worker's own fields say, apart from the record of its pane. */
  predicate WorkerOk(s: State, t: nat, x: Worker) {
    && FitsRole(x.kind, x.role)
    && (x.role.Top? <==> t < 4)
    && (x.role.Top? ==> x.role.i == t && x.win == t)
    && PcOk(x.pc, s.budget)
    && (x.leaf != NoLeaf ==> UsesLeaves(x.pc))
    && (x.pc.Drawing? <==> s.ui == Some(Thread(t)))
    && (x.leaf.Holds? ==> x.leaf.m in s.leaves && s.leaves[x.leaf.m] == Thread(t))
  }

  predicate WorkersOk(s: State) {
    forall t :: 0 <= t < |s.workers| ==> WorkerOk(s, t, s.workers[t])
  }

  predicate AllRecorded(pc: MainPc, slot: SlotRecord, dock: DockRecord, workers: seq<Worker>) {
    forall t :: 0 <= t < |workers| && workers[t].pc != Exited ==> Recorded(pc, slot, dock, t, workers[t])
  }

  predicate HolderOk(s: State, m: Leaf)
    requires m in s.leaves
  {
    match s.leaves[m]
    case Main => s.mode == HasLeaf(m)
    case Thread(t) => t < |s.workers| && s.workers[t].leaf == Holds(m)
  }

  predicate ModeOk(pc: MainPc, mode: MainMode) {
    mode == Plain || Interactive(pc) || (pc.Deleting? && mode in {AsksUi, HasUi}) || (pc.Deleted? && mode == HasUi)
  }

  predicate LocksOk(s: State) {
    && (s.ui == Some(Main) <==> s.mode == HasUi)
    && (s.ui.Some? && s.ui.value.Thread? ==> s.ui.value.t < |s.workers|)
    && (forall m :: m in s.leaves ==> HolderOk(s, m))
    && (s.mode.HasLeaf? ==> s.mode.m in s.leaves && s.leaves[s.mode.m] == Main)
  }

  predicate WindowOpen(w: Windows, win: Option<nat>, gone: bool) {
    win.Some? ==> 4 <= win.value < w.next && (win.value in w.live <==> !gone)
  }

  predicate WindowsOk(pc: MainPc, slotWin: Option<nat>, dockWin: Option<nat>, w: Windows) {
    && 4 <= w.next
    && (forall n :: n in w.live ==> n < w.next && (n < 4 || slotWin == Some(n) || dockWin == Some(n)))
    && (forall i: nat :: i < 4 ==> (i in w.live <==> TopOpen(pc, i)))
    && WindowOpen(w, slotWin, pc == Deleted(SlotWindow))
    && WindowOpen(w, dockWin, pc.Deleted? && pc.d.DockWindow?)
    && (slotWin.Some? ==> slotWin != dockWin)
  }

  predicate RecordsOk(slot: SlotRecord, dock: DockRecord, workers: seq<Worker>) {
    && (slot.tid.Some? ==>
          4 <= slot.tid.value < |workers| && workers[slot.tid.value].role == Slot && slot.win.Some?)
    && (dock.active ==> 4 <= dock.tid < |workers| && workers[dock.tid].role == Dock && dock.win.Some?)
  }

  predicate NoDock(dock: DockRecord) { !dock.active && dock.win == None }

  predicate NoSlot(slot: SlotRecord) { slot.tid == None && slot.win == None }

  predicate FlagsOk(pc: MainPc, flags: Flags) {
    flags.ready == !Booting(pc) && flags.stop == Quitting(pc)
  }

  /** What the main thread knows about the panes at each of its places. */
  predicate PlaceOk(pc: MainPc, slot: SlotRecord, dock: DockRecord, workers: seq<Worker>) {
    && (if pc.Boot? then |workers| == pc.n < 4 else 4 <= |workers|)
    && (!Booting(pc) && !Quitting(pc) ==>
          slot.win.Some? && (slot.chosen <==> slot.tid.Some? || pc in {ChangeLower, ChangeSpawn}))
    && match pc
       case Boot(_) => NoSlot(slot) && NoDock(dock)
       case BootSlot => NoSlot(slot) && NoDock(dock)
       case BootSlotSpawn => slot.tid == None && slot.win.Some? && !slot.stop && NoDock(dock)
       case BootDock => slot.tid.Some? && slot.chosen && NoDock(dock)
       case BootDockSpawn => slot.tid.Some? && slot.chosen && !dock.active && dock.win.Some? && !dock.stop
       case BootReady => slot.tid.Some? && slot.chosen
       case ChangeJoin => slot.tid.Some? && slot.stop
       case ChangeSelect => slot.tid == None
       case ChangeLower => slot.tid == None
       case ChangeSpawn => slot.tid == None && !slot.stop
       case LayoutDockLower => !dock.active && dock.win.Some?
       case LayoutDockSpawn => !dock.active && dock.win.Some? && !dock.stop
       case DockJoin(_) => dock.active && dock.stop
       case QuitJoin(i) => i < 4
       case SlotStop => NoDock(dock)
       case SlotJoin => NoDock(dock) && slot.tid.Some? && slot.stop
       case Deleting(d) => DoomedOk(slot, dock, d)
       case Deleted(d) => DoomedOk(slot, dock, d)
       case Done => NoDock(dock) && NoSlot(slot)
       case _ => true
  }

  predicate DoomedOk(slot: SlotRecord, dock: DockRecord, d: Doomed) {
    match d
    case DockWindow(_) => !dock.active && dock.win.Some?
    case SlotWindow => NoDock(dock) && slot.tid == None && slot.win.Some?
    case TopWindow(i) => i < 4 && NoDock(dock) && NoSlot(slot)
  }

  /** The part of the invariant about the main thread and its records. */
  predicate MainOk(s: State) {
    && ModeOk(s.pc, s.mode)
    && FlagsOk(s.pc, s.flags)
    && WindowsOk(s.pc, s.slot.win, s.dock.win, s.wins)
    && RecordsOk(s.slot, s.dock, s.workers)
    && PlaceOk(s.pc, s.slot, s.dock, s.workers)
    && AllRecorded(s.pc, s.slot, s.dock, s.workers)
  }

  predicate Inv(s: State) {
    WorkersOk(s) && LocksOk(s) && MainOk(s)
  }

  lemma InitOk(budget: nat, showTop: bool)
    ensures Inv(Init(budget, showTop))
  {
  }

  // ---------------------------------------------------------------- worker steps

  lemma WorkerStepKeepsWorkers(s: State, t: nat, w: WorkerStep)
    requires WorkersOk(s) && LocksOk(s) && WorkerEnabled(s, t, w)
    ensures WorkersOk(DoWorker(s, t, w))
  {
    var s' := DoWorker(s, t, w);
    assert WorkerOk(s, t, s.workers[t]);
    forall u | 0 <= u < |s'.workers|
      ensures WorkerOk(s', u, s'.workers[u])
    {
      assert WorkerOk(s, u, s.workers[u]);
    }
  }

  lemma WorkerStepKeepsLocks(s: State, t: nat, w: WorkerStep)
    requires WorkersOk(s) && LocksOk(s) && WorkerEnabled(s, t, w)
    ensures LocksOk(DoWorker(s, t, w))
  {
    var s' := DoWorker(s, t, w);
    assert WorkerOk(s, t, s.workers[t]);
    forall m | m in s'.leaves
      ensures HolderOk(s', m)
    {
      assert m in s.leaves ==> HolderOk(s, m);
    }
  }

  /** The main thread's part survives any change to the workers that revives none of them. */
  lemma SameMain(s: State, s': State)
    requires MainOk(s)
    requires s'.pc == s.pc && s'.mode == s.mode && s'.flags == s.flags
    requires s'.slot == s.slot && s'.dock == s.dock && s'.wins == s.wins && |s'.workers| == |s.workers|
    requires forall u :: 0 <= u < |s.workers| ==>
               && s'.workers[u].role == s.workers[u].role && s'.workers[u].win == s.workers[u].win
               && (s'.workers[u].pc != Exited ==> s.workers[u].pc != Exited)
    ensures MainOk(s')
  {
    forall u | 0 <= u < |s'.workers| && s'.workers[u].pc != Exited
      ensures Recorded(s'.pc, s'.slot, s'.dock, u, s'.workers[u])
    {
      assert Recorded(s.pc, s.slot, s.dock, u, s.workers[u]);
    }
  }

  lemma WorkerStepKeepsMain(s: State, t: nat, w: WorkerStep)
    requires WorkersOk(s) && MainOk(s) && WorkerEnabled(s, t, w)
    ensures MainOk(DoWorker(s, t, w))
  {
    assert WorkerOk(s, t, s.workers[t]);
    SameMain(s, DoWorker(s, t, w));
  }

  // ---------------------------------------------------------------- main steps

  /** Workers and locks stay consistent when the main thread touches neither, but may start a worker. */
  lemma SameThreads(s: State, s': State)
    requires WorkersOk(s) && LocksOk(s)
    requires s'.ui == s.ui && s'.leaves == s.leaves && s'.mode == s.mode && s'.budget == s.budget
    requires s'.workers == s.workers ||
             (s'.workers != [] && s'.workers[..|s'.workers| - 1] == s.workers &&
              var x := s'.workers[|s.workers|];
              x == NewWorker(x.role, x.kind, x.win) && WorkerOk(s', |s.workers|, x))
    ensures WorkersOk(s') && LocksOk(s')
  {
    assert forall t :: 0 <= t < |s.workers| ==> s'.workers[t] == s.workers[t] by {
      if s'.workers != s.workers {
        assert forall t :: 0 <= t < |s.workers| ==> s'.workers[t] == s'.workers[..|s'.workers| - 1][t];
      }
    }
    forall t | 0 <= t < |s'.workers|
      ensures WorkerOk(s', t, s'.workers[t])
    {
      assert t < |s.workers| ==> WorkerOk(s, t, s.workers[t]);
    }
    forall m | m in s'.leaves
      ensures HolderOk(s', m)
    {
      assert HolderOk(s, m);
    }
  }

  lemma LockStepKeepsThreads(s: State, m: MainStep)
    requires WorkersOk(s) && LocksOk(s) && MainEnabled(s, m) && !m.Advance?
    ensures WorkersOk(DoMain(s, m)) && LocksOk(DoMain(s, m))
  {
    var s' := DoMain(s, m);
    forall t | 0 <= t < |s'.workers|
      ensures WorkerOk(s', t, s'.workers[t])
    {
      assert WorkerOk(s, t, s.workers[t]);
    }
    forall l | l in s'.leaves
      ensures HolderOk(s', l)
    {
      assert l in s.leaves ==> HolderOk(s, l);
    }
  }

  lemma LockStepKeepsMain(s: State, m: MainStep)
    requires MainOk(s) && MainEnabled(s, m) && !m.Advance?
    ensures MainOk(DoMain(s, m))
  {
  }

  /** Starting the slot's worker, when it has none and its window is open. */
  lemma SpawnSlotKeepsRecords(s: State, kind: Kind, next: MainPc)
    requires RecordsOk(s.slot, s.dock, s.workers) && AllRecorded(s.pc, s.slot, s.dock, s.workers)
    requires s.slot.tid == None && s.slot.win.Some? && 4 <= |s.workers| && !Quitting(s.pc) && !Quitting(next)
    ensures var s' := SpawnSlot(s, kind, next);
            RecordsOk(s'.slot, s'.dock, s'.workers) && AllRecorded(s'.pc, s'.slot, s'.dock, s'.workers)
  {
    var s' := SpawnSlot(s, kind, next);
    forall t | 0 <= t < |s'.workers| && s'.workers[t].pc != Exited
      ensures Recorded(s'.pc, s'.slot, s'.dock, t, s'.workers[t])
    {
      assert t < |s.workers| ==> Recorded(s.pc, s.slot, s.dock, t, s.workers[t]);
    }
  }

  lemma SpawnDockKeepsRecords(s: State, next: MainPc)
    requires RecordsOk(s.slot, s.dock, s.workers) && AllRecorded(s.pc, s.slot, s.dock, s.workers)
    requires !s.dock.active && s.dock.win.Some? && 4 <= |s.workers| && !Quitting(s.pc) && !Quitting(next)
    ensures var s' := SpawnDock(s, next);
            RecordsOk(s'.slot, s'.dock, s'.workers) && AllRecorded(s'.pc, s'.slot, s'.dock, s'.workers)
  {
    var s' := SpawnDock(s, next);
    forall t | 0 <= t < |s'.workers| && s'.workers[t].pc != Exited
      ensures Recorded(s'.pc, s'.slot, s'.dock, t, s'.workers[t])
    {
      assert t < |s.workers| ==> Recorded(s.pc, s.slot, s.dock, t, s.workers[t]);
    }
  }

  lemma BootSpawnKeepsMain(s: State, choice: bool, kind: Kind)
    requires MainOk(s) && MainEnabled(s, Advance(choice, kind)) && (s.pc.BootSlotSpawn? || s.pc.BootDockSpawn?)
    ensures MainOk(DoBoot(s, choice, kind))
  {
    if s.pc.BootSlotSpawn? {
      SpawnSlotKeepsRecords(s, kind, BootDock);
    } else {
      SpawnDockKeepsRecords(s, BootReady);
    }
  }

  lemma BootKeepsMain(s: State, choice: bool, kind: Kind)
    requires MainOk(s) && MainEnabled(s, Advance(choice, kind)) && Booting(s.pc)
    ensures MainOk(DoBoot(s, choice, kind))
  {
    if s.pc.BootSlotSpawn? || s.pc.BootDockSpawn? {
      BootSpawnKeepsMain(s, choice, kind);
    }
  }

  lemma ChangeSpawnKeepsMain(s: State, choice: bool, kind: Kind)
    requires MainOk(s) && MainEnabled(s, Advance(choice, kind)) && s.pc.ChangeSpawn?
    ensures MainOk(DoChange(s, choice, kind))
  {
    SpawnSlotKeepsRecords(s, kind, Idle);
  }

  /** Replacing the slot's worker. */
  lemma ChangeKeepsMain(s: State, choice: bool, kind: Kind)
    requires MainOk(s) && MainEnabled(s, Advance(choice, kind)) && Changing(s.pc)
    ensures MainOk(DoChange(s, choice, kind))
  {
    if s.pc.ChangeSpawn? {
      ChangeSpawnKeepsMain(s, choice, kind);
    }
  }

  lemma LayoutSyncKeepsWindows(s: State, choice: bool)
    requires MainOk(s) && s.pc.LayoutSync?
    ensures var s' := DoLayout(s, choice); WindowsOk(s'.pc, s'.slot.win, s'.dock.win, s'.wins)
  {
  }

  lemma LayoutSyncKeepsRecords(s: State, choice: bool)
    requires MainOk(s) && s.pc.LayoutSync?
    ensures var s' := DoLayout(s, choice);
            RecordsOk(s'.slot, s'.dock, s'.workers) && AllRecorded(s'.pc, s'.slot, s'.dock, s'.workers)
  {
    var s' := DoLayout(s, choice);
    forall t | 0 <= t < |s'.workers| && s'.workers[t].pc != Exited
      ensures Recorded(s'.pc, s'.slot, s'.dock, t, s'.workers[t])
    {
      assert Recorded(s.pc, s.slot, s.dock, t, s.workers[t]);
    }
  }

  lemma LayoutSyncKeepsMain(s: State, choice: bool)
    requires MainOk(s) && s.mode == Plain && s.pc.LayoutSync?
    ensures MainOk(DoLayout(s, choice))
  {
    LayoutSyncKeepsWindows(s, choice);
    LayoutSyncKeepsRecords(s, choice);
  }

  lemma LayoutRestKeepsMain(s: State)
    requires MainOk(s) && s.mode == Plain && (s.pc.LayoutDockLower? || s.pc.LayoutDockSpawn? || s.pc.LayoutDone?)
    ensures MainOk(DoLayout(s, false))
  {
  }

  lemma DockStopKeepsRecords(s: State)
    requires MainOk(s) && s.pc.DockStop?
    ensures var s' := DoJoin(s);
            RecordsOk(s'.slot, s'.dock, s'.workers) && AllRecorded(s'.pc, s'.slot, s'.dock, s'.workers)
  {
    var s' := DoJoin(s);
    forall t | 0 <= t < |s'.workers| && s'.workers[t].pc != Exited
      ensures Recorded(s'.pc, s'.slot, s'.dock, t, s'.workers[t])
    {
      assert Recorded(s.pc, s.slot, s.dock, t, s.workers[t]);
    }
  }

  lemma DockStopKeepsMain(s: State)
    requires MainOk(s) && s.mode == Plain && s.pc.DockStop?
    ensures MainOk(DoJoin(s))
  {
    DockStopKeepsRecords(s);
  }

  /** Joining the support column's worker: its record goes only once it has exited. */
  lemma DockJoinKeepsMain(s: State)
    requires MainOk(s) && s.mode == Plain && s.pc.DockJoin? && HasExited(s, s.dock.tid)
    ensures MainOk(DoJoin(s))
  {
  }

  /** Joining the top workers in order: after the fourth, none of them is live. */
  lemma QuitJoinKeepsMain(s: State, choice: bool, kind: Kind)
    requires MainOk(s) && WorkersOk(s) && MainEnabled(s, Advance(choice, kind)) && s.pc.QuitJoin?
    ensures MainOk(DoJoin(s))
  {
    var s' := DoJoin(s);
    forall t | 0 <= t < |s.workers| && s.workers[t].pc != Exited
      ensures Recorded(s'.pc, s.slot, s.dock, t, s.workers[t])
    {
      assert WorkerOk(s, t, s.workers[t]);
      assert t != s.pc.i;
    }
  }

  lemma SlotJoinKeepsMain(s: State, choice: bool, kind: Kind)
    requires MainOk(s) && MainEnabled(s, Advance(choice, kind)) && (s.pc.SlotStop? || s.pc.SlotJoin?)
    ensures MainOk(DoJoin(s))
  {
  }

  lemma DeleteKeepsMain(s: State)
    requires MainOk(s) && s.mode == HasUi && s.pc.Deleting?
    ensures MainOk(Delete(s, s.pc.d))
  {
  }

  lemma ForgetKeepsWindows(s: State)
    requires MainOk(s) && s.pc.Deleted?
    ensures var s' := Forget(s, s.pc.d); WindowsOk(s'.pc, s'.slot.win, s'.dock.win, s'.wins)
  {
  }

  lemma ForgetKeepsRecords(s: State)
    requires MainOk(s) && s.pc.Deleted?
    ensures var s' := Forget(s, s.pc.d);
            RecordsOk(s'.slot, s'.dock, s'.workers) && AllRecorded(s'.pc, s'.slot, s'.dock, s'.workers)
  {
    var s' := Forget(s, s.pc.d);
    forall t | 0 <= t < |s'.workers| && s'.workers[t].pc != Exited
      ensures Recorded(s'.pc, s'.slot, s'.dock, t, s'.workers[t])
    {
      assert Recorded(s.pc, s.slot, s.dock, t, s.workers[t]);
    }
  }

  lemma ForgetKeepsMain(s: State)
    requires MainOk(s) && s.mode == Plain && s.pc.Deleted?
    ensures MainOk(Forget(s, s.pc.d))
  {
    ForgetKeepsWindows(s);
    ForgetKeepsRecords(s);
  }

  lemma JoinKeepsMain(s: State, choice: bool, kind: Kind)
    requires Inv(s) && MainEnabled(s, Advance(choice, kind)) && Joining(s.pc)
    ensures MainOk(DoJoin(s))
  {
    if s.pc.QuitJoin? {
      QuitJoinKeepsMain(s, choice, kind);
    } else if s.pc.SlotStop? || s.pc.SlotJoin? {
      SlotJoinKeepsMain(s, choice, kind);
    } else if s.pc.DockStop? {
      DockStopKeepsMain(s);
    } else {
      DockJoinKeepsMain(s);
    }
  }

  lemma BootKeepsThreads(s: State, choice: bool, kind: Kind)
    requires Inv(s) && MainEnabled(s, Advance(choice, kind)) && Booting(s.pc)
    ensures WorkersOk(DoBoot(s, choice, kind)) && LocksOk(DoBoot(s, choice, kind))
  {
    SameThreads(s, DoBoot(s, choice, kind));
  }

  lemma ChangeKeepsThreads(s: State, choice: bool, kind: Kind)
    requires Inv(s) && MainEnabled(s, Advance(choice, kind)) && Changing(s.pc)
    ensures WorkersOk(DoChange(s, choice, kind)) && LocksOk(DoChange(s, choice, kind))
  {
    SameThreads(s, DoChange(s, choice, kind));
  }

  lemma LayoutKeepsThreads(s: State, choice: bool)
    requires Inv(s) && s.mode == Plain && LayingOut(s.pc)
    ensures WorkersOk(DoLayout(s, choice)) && LocksOk(DoLayout(s, choice))
  {
    SameThreads(s, DoLayout(s, choice));
  }

  lemma AdvanceKeepsInv(s: State, choice: bool, kind: Kind)
    requires Inv(s) && MainEnabled(s, Advance(choice, kind))
    ensures Inv(DoAdvance(s, choice, kind))
  {
    if Booting(s.pc) {
      BootKeepsMain(s, choice, kind);
      BootKeepsThreads(s, choice, kind);
    } else if Changing(s.pc) {
      ChangeKeepsMain(s, choice, kind);
      ChangeKeepsThreads(s, choice, kind);
    } else if LayingOut(s.pc) {
      if s.pc.LayoutSync? {
        LayoutSyncKeepsMain(s, choice);
      } else {
        LayoutRestKeepsMain(s);
      }
      LayoutKeepsThreads(s, choice);
    } else {
      WindDownKeepsInv(s, choice, kind);
    }
  }

  lemma JoinKeepsInv(s: State, choice: bool, kind: Kind)
    requires Inv(s) && MainEnabled(s, Advance(choice, kind)) && Joining(s.pc)
    ensures Inv(DoJoin(s))
  {
    JoinKeepsMain(s, choice, kind);
    SameThreads(s, DoJoin(s));
  }

  lemma DeleteKeepsInv(s: State)
    requires Inv(s) && s.mode == HasUi && s.pc.Deleting?
    ensures Inv(Delete(s, s.pc.d))
  {
    DeleteKeepsMain(s);
    SameThreads(s, Delete(s, s.pc.d));
  }

  lemma ForgetKeepsInv(s: State)
    requires Inv(s) && s.mode == Plain && s.pc.Deleted?
    ensures Inv(Forget(s, s.pc.d))
  {
    ForgetKeepsMain(s);
    SameThreads(s, Forget(s, s.pc.d));
  }

  lemma WindDownKeepsInv(s: State, choice: bool, kind: Kind)
    requires Inv(s) && MainEnabled(s, Advance(choice, kind))
    requires Joining(s.pc) || s.pc.Deleting? || s.pc.Deleted?
    ensures Inv(DoAdvance(s, choice, kind))
  {
    if Joining(s.pc) {
      JoinKeepsInv(s, choice, kind);
    } else if s.pc.Deleting? {
      DeleteKeepsInv(s);
    } else {
      ForgetKeepsInv(s);
    }
  }

  /** Every step keeps the invariant. */
  lemma StepKeepsInv(s: State, step: Step)
    requires Inv(s) && Enabled(s, step)
    ensures Inv(Do(s, step))
  {
    match step
    case ByWorker(t, w) =>
      WorkerStepKeepsWorkers(s, t, w);
      WorkerStepKeepsLocks(s, t, w);
      WorkerStepKeepsMain(s, t, w);
    case ByMain(m) =>
      if m.Advance? {
        AdvanceKeepsInv(s, m.choice, m.kind);
      } else {
        LockStepKeepsMain(s, m);
        LockStepKeepsThreads(s, m);
      }
  }

  // ---------------------------------------------------------------- every run

  lemma {:induction false} RunKeepsInv(s: State, run: seq<Step>)
    requires Inv(s) && ValidRun(s, run)
    ensures Inv(End(s, run))
    decreases |run|
  {
    if run != [] {
      StepKeepsInv(s, run[0]);
      RunKeepsInv(Do(s, run[0]), run[1..]);
    }
  }

  lemma ReachableInv(s: State)
    requires Reachable(s)
    ensures Inv(s)
  {
    var budget, showTop, run :| ValidRun(Init(budget, showTop), run) && End(Init(budget, showTop), run) == s;
    InitOk(budget, showTop);
    RunKeepsInv(Init(budget, showTop), run);
  }

  /** The window of a live worker is open. */
  lemma LiveWorkerHasWindow(s: State, t: nat)
    requires Inv(s) && t < |s.workers| && s.workers[t].pc != Exited
    ensures s.workers[t].win in s.wins.live
  {
    var x := s.workers[t];
    assert WorkerOk(s, t, x);
    assert Recorded(s.pc, s.slot, s.dock, t, x);
  }

  /** In every interleaving, a worker about to draw draws on an open window. */
  lemma DrawsOnOpenWindow(s: State, t: nat)
    requires Reachable(s) && WorkerEnabled(s, t, Draw)
    ensures s.workers[t].win in s.wins.live
  {
    ReachableInv(s);
    LiveWorkerHasWindow(s, t);
  }

  lemma StepKeepsGone(s: State, step: Step, w: nat)
    requires Enabled(s, step) && w < s.wins.next && w !in s.wins.live
    ensures w < Do(s, step).wins.next && w !in Do(s, step).wins.live
  {
  }

  /** A window number once used and no longer open is never open again. */
  lemma {:induction false} GoneForGood(s: State, run: seq<Step>, w: nat)
    requires ValidRun(s, run) && w < s.wins.next && w !in s.wins.live
    ensures w !in End(s, run).wins.live
    decreases |run|
  {
    if run != [] {
      StepKeepsGone(s, run[0], w);
      GoneForGood(Do(s, run[0]), run[1..], w);
    }
  }

  /** Once the main thread deleted a window, no later draw step of any worker touches it. */
  lemma NoDrawAfterDelete(s: State, choice: bool, kind: Kind, run: seq<Step>, t: nat)
    requires Reachable(s) && s.pc.Deleting? && Enabled(s, ByMain(Advance(choice, kind)))
    requires ValidRun(Do(s, ByMain(Advance(choice, kind))), run)
    requires WorkerEnabled(End(Do(s, ByMain(Advance(choice, kind))), run), t, Draw)
    ensures WindowOf(s, s.pc.d) != Some(End(Do(s, ByMain(Advance(choice, kind))), run).workers[t].win)
  {
    var step := ByMain(Advance(choice, kind));
    var s1 := Do(s, step);
    ReachableInv(s);
    StepKeepsInv(s, step);
    RunKeepsInv(s1, run);
    LiveWorkerHasWindow(End(s1, run), t);
    var w := WindowOf(s, s.pc.d);
    if w.Some? {
      GoneForGood(s1, run, w.value);
    }
  }

  /** Each top place, the slot and the support column have at most one live worker. */
  lemma OneLiveWorkerPerPane(s: State, t: nat, u: nat)
    requires Reachable(s) && t < |s.workers| && u < |s.workers|
    requires s.workers[t].pc != Exited && s.workers[u].pc != Exited && s.workers[t].role == s.workers[u].role
    ensures t == u
  {
    ReachableInv(s);
    assert WorkerOk(s, t, s.workers[t]) && WorkerOk(s, u, s.workers[u]);
    assert Recorded(s.pc, s.slot, s.dock, t, s.workers[t]) && Recorded(s.pc, s.slot, s.dock, u, s.workers[u]);
  }

  predicate LowersOnlyThere(s: State, s': State) {
    && (s.flags.stop ==> s'.flags.stop)
    && (s.slot.stop && !s'.slot.stop ==> s.pc in {BootSlot, ChangeLower})
    && (s.dock.stop && !s'.dock.stop ==> s.pc in {BootDock, LayoutDockLower})
  }

  lemma StartsLowerOnlyThere(s: State, choice: bool, kind: Kind)
    ensures LowersOnlyThere(s, DoBoot(s, choice, kind)) && LowersOnlyThere(s, DoChange(s, choice, kind))
  {
  }

  lemma LayoutLowersOnlyThere(s: State, choice: bool)
    ensures LowersOnlyThere(s, DoLayout(s, choice)) && LowersOnlyThere(s, DoJoin(s))
  {
  }

  lemma AdvanceLowersOnlyThere(s: State, choice: bool, kind: Kind)
    ensures LowersOnlyThere(s, DoAdvance(s, choice, kind))
  {
    if Booting(s.pc) || Changing(s.pc) {
      StartsLowerOnlyThere(s, choice, kind);
    } else if LayingOut(s.pc) || Joining(s.pc) {
      LayoutLowersOnlyThere(s, choice);
    }
  }

  /** The only places that lower a stop flag. */
  lemma WhereFlagsAreLowered(s: State, step: Step)
    requires Enabled(s, step)
    ensures s.flags.stop ==> Do(s, step).flags.stop
    ensures s.slot.stop && !Do(s, step).slot.stop ==> s.pc in {BootSlot, ChangeLower}
    ensures s.dock.stop && !Do(s, step).dock.stop ==> s.pc in {BootDock, LayoutDockLower}
  {
    if step.ByMain? && step.m.Advance? {
      AdvanceLowersOnlyThere(s, step.m.choice, step.m.kind);
    }
  }

  lemma LoweringFindsNoLiveWorker(s: State, step: Step, t: nat)
    requires Inv(s) && Enabled(s, step) && t < |s.workers|
    ensures s.slot.stop && !Do(s, step).slot.stop && s.workers[t].role == Slot ==> HasExited(s, t)
    ensures s.dock.stop && !Do(s, step).dock.stop && s.workers[t].role == Dock ==> HasExited(s, t)
  {
    WhereFlagsAreLowered(s, step);
    if s.workers[t].pc != Exited {
      assert Recorded(s.pc, s.slot, s.dock, t, s.workers[t]);
    }
  }

  /** A stop flag is lowered only when every worker it ever stopped has ended. */
  lemma FlagLoweredAfterJoin(s: State, step: Step, t: nat)
    requires Reachable(s) && Enabled(s, step) && t < |s.workers|
    ensures s.flags.stop ==> Do(s, step).flags.stop
    ensures s.slot.stop && !Do(s, step).slot.stop && s.workers[t].role == Slot ==> HasExited(s, t)
    ensures s.dock.stop && !Do(s, step).dock.stop && s.workers[t].role == Dock ==> HasExited(s, t)
  {
    ReachableInv(s);
    WhereFlagsAreLowered(s, step);
    LoweringFindsNoLiveWorker(s, step, t);
  }

  /** Worker draws exclude each other and the main thread's locked drawing. */
  lemma DrawsExclusive(s: State, t: nat, u: nat)
    requires Reachable(s) && t < |s.workers| && s.workers[t].pc.Drawing?
    ensures s.mode != HasUi
    ensures u < |s.workers| && s.workers[u].pc.Drawing? ==> u == t
  {
    ReachableInv(s);
    assert WorkerOk(s, t, s.workers[t]);
    assert u < |s.workers| ==> WorkerOk(s, u, s.workers[u]);
  }
}
