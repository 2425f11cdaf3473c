/** The dashboard's main thread and its drawing workers as an interleaved transition system.

    One step is one lock, unlock, draw call, flag check, sleep tick, thread start, join or window
    deletion. `Enabled` says which steps a state allows and `Do` performs one; a run is any sequence
    of enabled steps, so every schedule of the threads is a run.

    The runtime lock guards single reads and writes of the ready, paused and stop flags and nests
    nothing, so a flag check is one step here. The other leaf mutexes are locked and unlocked
    explicitly, and asking for a mutex is a step of its own: a thread that asked can only wait. */
module Lifecycle {
  import opened History

  // ---------------------------------------------------------------- workers

  /** The mutexes that may be taken while `ncurses_mutex` is held, or on their own. */
  datatype Leaf =
    | GlobalVar | MemoryInfo | DiskInfo | BandwidthState | ConnectionState | SupportView | ActionAudit

  datatype Kind =
    | SystemInfo | Cpu | Memory | Disk
    | Network | Connections | SocketOwners | Processes | ProcessesCompact
    | Support

  datatype Role = Top(i: nat) | Slot | Dock

  datatype LeafUse = NoLeaf | Wants(m: Leaf) | Holds(m: Leaf)

  /** Where a worker is in its loop. `f` counts frames still to come in this iteration and `n` the
      leaf sections or draw calls still allowed in the current stretch. */
  datatype WorkerPc =
    | AwaitReady
    | Begin(n: nat)
    | CheckStop
    | CheckPaused
    | CheckShown
    | Collect(f: nat, n: nat)
    | WantUi(f: nat)
    | Drawing(f: nat, n: nat)
    | After(f: nat, n: nat)
    | Waiting(ticks: nat)
    | Probing(ticks: nat, n: nat)
    | Exited

  datatype Worker = Worker(role: Role, kind: Kind, win: nat, pc: WorkerPc, leaf: LeafUse)

  function TopKind(i: nat): Kind {
    [SystemInfo, Cpu, Memory, Disk][if i < 4 then i else 3]
  }

  predicate FitsRole(kind: Kind, role: Role) {
    match role
    case Top(i) => kind == TopKind(i)
    case Slot => kind in {Network, Connections, SocketOwners, Processes, ProcessesCompact}
    case Dock => kind == Support
  }

  /** The two process panels draw a cleared frame first, then the rows. */
  function ExtraFrames(kind: Kind): nat {
    if kind in {Processes, ProcessesCompact} then 1 else 0
  }

  /** Which leaf mutexes each kind of worker takes at each stretch of its loop. */
  predicate MayTake(kind: Kind, pc: WorkerPc, m: Leaf) {
    match pc
    case Begin(_) =>
      (kind == Network && m == BandwidthState) ||
      (kind == Processes && m == ConnectionState) ||
      (kind == Support && m in {BandwidthState, ConnectionState})
    case Collect(_, _) =>
      (kind == Disk && m == DiskInfo) ||
      (kind == Connections && m in {ConnectionState, BandwidthState}) ||
      (kind == Support && m in {ConnectionState, BandwidthState, SupportView})
    case Drawing(_, _) =>
      (kind == Cpu && m == GlobalVar) ||
      (kind == Memory && m == MemoryInfo) ||
      (kind == Connections && m == ConnectionState) ||
      (kind == Network && m == BandwidthState) ||
      (kind == Support && m in {SupportView, ActionAudit})
    case After(_, _) => kind == Network && m == BandwidthState
    case Probing(_, _) => kind in {Processes, Support} && m == SupportView
    case _ => false
  }

  /** The leaf sections or draw calls left in the current stretch. */
  function Allowance(pc: WorkerPc): nat {
    match pc
    case Begin(n) => n
    case Collect(_, n) => n
    case Drawing(_, n) => n
    case After(_, n) => n
    case Probing(_, n) => n
    case _ => 0
  }

  function Spend(pc: WorkerPc): WorkerPc
    requires Allowance(pc) > 0
  {
    match pc
    case Begin(n) => Begin(n - 1)
    case Collect(f, n) => Collect(f, n - 1)
    case Drawing(f, n) => Drawing(f, n - 1)
    case After(f, n) => After(f, n - 1)
    case Probing(t, n) => Probing(t, n - 1)
  }

  // ---------------------------------------------------------------- main thread

  /** A window on its way out: the dock's (also at shutdown when `quit`), the slot's, or top window `i`. */
  datatype Doomed = DockWindow(quit: bool) | SlotWindow | TopWindow(i: nat)

  datatype MainPc =
    | Boot(n: nat) | BootSlot | BootSlotSpawn | BootDock | BootDockSpawn | BootReady
    | Idle
    | ChangeJoin | ChangeSelect | ChangeLower | ChangeSpawn
    | LayoutSync | LayoutDockLower | LayoutDockSpawn | LayoutDone
    | DockStop(quit: bool) | DockJoin(quit: bool)
    | QuitJoin(i: nat) | SlotStop | SlotJoin
    | Deleting(d: Doomed) | Deleted(d: Doomed)
    | Done

  datatype MainMode = Plain | AsksUi | HasUi | AsksLeaf(m: Leaf) | HasLeaf(m: Leaf)

  datatype Agent = Main | Thread(t: nat)

  /** The runtime flags, and whether the top panels are shown. */
  datatype Flags = Flags(ready: bool, paused: bool, stop: bool, showTop: bool)

  /** The primary pane: its worker, whether a module is selected, its window and its stop flag. */
  datatype SlotRecord = SlotRecord(tid: Option<nat>, chosen: bool, win: Option<nat>, stop: bool)

  /** The support column: its worker (if active), its window and its stop flag. */
  datatype DockRecord = DockRecord(tid: nat, active: bool, win: Option<nat>, stop: bool)

  /** The open windows, and the next unused window number. */
  datatype Windows = Windows(live: set<nat>, next: nat)

  datatype State = State(
    pc: MainPc, mode: MainMode, flags: Flags,
    slot: SlotRecord, dock: DockRecord, wins: Windows,
    workers: seq<Worker>,
    ui: Option<Agent>, leaves: map<Leaf, Agent>,
    budget: nat)

  /** The four top windows exist before any thread does; `budget` bounds the leaf sections and the
      draw calls of one stretch, and is any number. */
  function Init(budget: nat, showTop: bool): State {
    State(Boot(0), Plain, Flags(false, false, false, showTop),
          SlotRecord(None, false, None, false), DockRecord(0, false, None, false), Windows({0, 1, 2, 3}, 4),
          [], None, map[], budget)
  }

  // ---------------------------------------------------------------- steps

  datatype WorkerStep =
    | SeeReady(n: nat)
    | Begun
    | SeeStop
    | SeePaused(ticks: nat, n: nat)
    | SeeShown(ticks: nat, n: nat)
    | Ask(m: Leaf) | Take | Drop
    | Collected
    | TakeUi(n: nat)
    | Draw
    | DropUi(n: nat)
    | NextFrame(n: nat)
    | Rest(ticks: nat)
    | SeeStopWaiting
    | Tick
    | Wake

  datatype MainStep =
    | Advance(choice: bool, kind: Kind)
    | KeyChange | KeyLayout(pause: bool) | KeyTop | KeyQuit
    | SetPaused(b: bool)
    | AskUi | GetUi | GiveUi
    | AskLeaf(m: Leaf) | GetLeaf | GiveLeaf

  datatype Step = ByWorker(t: nat, w: WorkerStep) | ByMain(m: MainStep)

  /** `trfx_thread_should_stop`: the global flag, or the worker's own. */
  predicate Stopped(s: State, role: Role) {
    s.flags.stop || (role == Slot && s.slot.stop) || (role == Dock && s.dock.stop)
  }

  predicate WorkerEnabled(s: State, t: nat, w: WorkerStep) {
    t < |s.workers| &&
    var x := s.workers[t];
    match w
    case Ask(m) => x.leaf == NoLeaf && MayTake(x.kind, x.pc, m) && Allowance(x.pc) > 0
    case Take => x.leaf.Wants? && x.leaf.m !in s.leaves
    case Drop => x.leaf.Holds?
    case SeeReady(n) => x.leaf == NoLeaf && x.pc == AwaitReady && (s.flags.ready || s.flags.stop) && n <= s.budget
    case Begun => x.leaf == NoLeaf && x.pc.Begin?
    case SeeStop => x.leaf == NoLeaf && x.pc == CheckStop
    case SeePaused(_, n) => x.leaf == NoLeaf && x.pc == CheckPaused && n <= s.budget
    case SeeShown(_, n) => x.leaf == NoLeaf && x.pc == CheckShown && n <= s.budget
    case Collected => x.leaf == NoLeaf && x.pc.Collect?
    case TakeUi(n) => x.leaf == NoLeaf && x.pc.WantUi? && s.ui == None && n <= s.budget
    case Draw => x.leaf == NoLeaf && x.pc.Drawing? && x.pc.n > 0
    case DropUi(n) => x.leaf == NoLeaf && x.pc.Drawing? && n <= s.budget
    case NextFrame(n) => x.leaf == NoLeaf && x.pc.After? && x.pc.f > 0 && n <= s.budget
    case Rest(_) => x.leaf == NoLeaf && x.pc.After?
    case SeeStopWaiting => x.leaf == NoLeaf && x.pc.Waiting?
    case Tick => x.leaf == NoLeaf && x.pc.Probing?
    case Wake => x.leaf == NoLeaf && x.pc.Probing?
  }

  function StartCollecting(kind: Kind, n: nat): WorkerPc {
    Collect(ExtraFrames(kind), n)
  }

  /** The worker's next place for every step that leaves the leaf mutexes alone. */
  function NextPc(s: State, x: Worker, w: WorkerStep): WorkerPc {
    match w
    case SeeReady(n) => Begin(n)
    case Begun => CheckStop
    case SeeStop => if Stopped(s, x.role) then Exited else CheckPaused
    case SeePaused(ticks, n) =>
      if s.flags.paused then Waiting(ticks)
      else if x.role.Top? then CheckShown
      else StartCollecting(x.kind, n)
    case SeeShown(ticks, n) => if s.flags.showTop then StartCollecting(x.kind, n) else Waiting(ticks)
    case Collected => if x.pc.Collect? then WantUi(x.pc.f) else x.pc
    case TakeUi(n) => if x.pc.WantUi? then Drawing(x.pc.f, n) else x.pc
    case Draw => if x.pc.Drawing? && x.pc.n > 0 then Drawing(x.pc.f, x.pc.n - 1) else x.pc
    case DropUi(n) => if x.pc.Drawing? then After(x.pc.f, n) else x.pc
    case NextFrame(n) => if x.pc.After? && x.pc.f > 0 then Collect(x.pc.f - 1, n) else x.pc
    case Rest(ticks) => Waiting(ticks)
    case SeeStopWaiting =>
      if x.pc.Waiting? && x.pc.ticks > 0 && !Stopped(s, x.role) then Probing(x.pc.ticks, 1) else CheckStop
    case Tick => if x.pc.Probing? && x.pc.ticks > 0 then Waiting(x.pc.ticks - 1) else CheckStop
    case Wake => CheckStop
    case _ => x.pc
  }

  function DoWorker(s: State, t: nat, w: WorkerStep): State
    requires WorkerEnabled(s, t, w)
  {
    var x := s.workers[t];
    match w
    case Ask(m) => s.(workers := s.workers[t := x.(pc := Spend(x.pc), leaf := Wants(m))])
    case Take =>
      s.(workers := s.workers[t := x.(leaf := Holds(x.leaf.m))], leaves := s.leaves[x.leaf.m := Thread(t)])
    case Drop =>
      s.(workers := s.workers[t := x.(leaf := NoLeaf)], leaves := s.leaves - {x.leaf.m})
    case _ =>
      s.(workers := s.workers[t := x.(pc := NextPc(s, x, w))],
         ui := if w.TakeUi? then Some(Thread(t)) else if w.DropUi? then None else s.ui)
  }

  /** Places where the main thread may draw or use a leaf mutex on its own account: start-up frames,
      key handlers, popups and layout changes. No join is among them. */
  predicate Interactive(pc: MainPc) {
    pc.Boot? || pc.BootSlot? || pc.BootSlotSpawn? || pc.BootDock? || pc.BootDockSpawn? || pc.BootReady? ||
    pc.Idle? || pc.ChangeSelect? || pc.LayoutSync? || pc.LayoutDockLower? || pc.LayoutDone?
  }

  predicate HasExited(s: State, t: nat) {
    t < |s.workers| && s.workers[t].pc == Exited
  }

  predicate MainEnabled(s: State, m: MainStep) {
    match m
    case AskUi => s.mode == Plain && (Interactive(s.pc) || s.pc.Deleting?)
    case GetUi => s.mode == AsksUi && s.ui == None
    case GiveUi => s.mode == HasUi && !s.pc.Deleting?
    case AskLeaf(_) => s.mode == Plain && Interactive(s.pc)
    case GetLeaf => s.mode.AsksLeaf? && s.mode.m !in s.leaves
    case GiveLeaf => s.mode.HasLeaf?
    case KeyChange => s.mode == Plain && s.pc == Idle
    case KeyLayout(_) => s.mode == Plain && s.pc == Idle
    case KeyTop => s.mode == Plain && s.pc == Idle
    case KeyQuit => s.mode == Plain && s.pc == Idle
    case SetPaused(_) => s.mode == Plain && (s.pc == Idle || s.pc == ChangeSelect)
    case Advance(choice, kind) =>
      match s.pc
      case Boot(n) => s.mode == Plain && n < 4
      case Idle => false
      case Done => false
      case Deleting(_) => s.mode == HasUi
      case BootSlotSpawn => s.mode == Plain && FitsRole(kind, Slot)
      case ChangeSpawn => s.mode == Plain && FitsRole(kind, Slot)
      case ChangeJoin => s.mode == Plain && s.slot.tid.Some? && HasExited(s, s.slot.tid.value)
      case SlotJoin => s.mode == Plain && s.slot.tid.Some? && HasExited(s, s.slot.tid.value)
      case DockJoin(_) => s.mode == Plain && HasExited(s, s.dock.tid)
      case QuitJoin(i) => s.mode == Plain && HasExited(s, i)
      case _ => s.mode == Plain
  }

  function NewWorker(role: Role, kind: Kind, win: nat): Worker {
    Worker(role, kind, win, AwaitReady, NoLeaf)
  }

  function AfterDock(quit: bool): MainPc {
    if quit then SlotStop else LayoutDone
  }

  function AfterDockJoin(s: State, quit: bool): MainPc {
    if s.dock.win.Some? then Deleting(DockWindow(quit)) else AfterDock(quit)
  }

  function AfterSlotJoin(s: State): MainPc {
    if s.slot.win.Some? then Deleting(SlotWindow) else Deleting(TopWindow(0))
  }

  function WindowOf(s: State, d: Doomed): Option<nat> {
    match d
    case DockWindow(_) => s.dock.win
    case SlotWindow => s.slot.win
    case TopWindow(i) => Some(i)
  }

  function Open(w: Windows): Windows {
    Windows(w.live + {w.next}, w.next + 1)
  }

  function Close(w: Windows, win: Option<nat>): Windows {
    match win
    case Some(n) => w.(live := w.live - {n})
    case None => w
  }

  function SpawnSlot(s: State, kind: Kind, next: MainPc): State {
    var win := match s.slot.win case Some(w) => w case None => 0;
    s.(slot := s.slot.(tid := Some(|s.workers|), chosen := true),
       workers := s.workers + [NewWorker(Slot, kind, win)], pc := next)
  }

  function SpawnDock(s: State, next: MainPc): State {
    var win := match s.dock.win case Some(w) => w case None => 0;
    s.(dock := s.dock.(tid := |s.workers|, active := true),
       workers := s.workers + [NewWorker(Dock, Support, win)], pc := next)
  }

  predicate Booting(pc: MainPc) {
    pc.Boot? || pc.BootSlot? || pc.BootSlotSpawn? || pc.BootDock? || pc.BootDockSpawn? || pc.BootReady?
  }

  predicate Changing(pc: MainPc) {
    pc.ChangeJoin? || pc.ChangeSelect? || pc.ChangeLower? || pc.ChangeSpawn?
  }

  predicate LayingOut(pc: MainPc) {
    pc.LayoutSync? || pc.LayoutDockLower? || pc.LayoutDockSpawn? || pc.LayoutDone?
  }

  predicate Joining(pc: MainPc) {
    pc.DockStop? || pc.DockJoin? || pc.QuitJoin? || pc.SlotStop? || pc.SlotJoin?
  }

  /** The start-up order of `start_dashboard`; `choice` is whether the secondary column is visible. */
  function DoBoot(s: State, choice: bool, kind: Kind): State {
    match s.pc
    case Boot(n) =>
      s.(workers := s.workers + [NewWorker(Top(n), TopKind(n), n)],
         pc := if n < 3 then Boot(n + 1) else BootSlot)
    case BootSlot =>
      s.(slot := s.slot.(win := Some(s.wins.next), stop := false), wins := Open(s.wins), pc := BootSlotSpawn)
    case BootSlotSpawn => SpawnSlot(s, kind, BootDock)
    case BootDock =>
      if choice then
        s.(dock := s.dock.(win := Some(s.wins.next), stop := false), wins := Open(s.wins), pc := BootDockSpawn)
      else s.(pc := BootReady)
    case BootDockSpawn => SpawnDock(s, BootReady)
    case BootReady => s.(flags := s.flags.(ready := true), pc := Idle)
    case _ => s
  }

  /** `change_window_module`; `choice` is whether the popup returned a module. */
  function DoChange(s: State, choice: bool, kind: Kind): State {
    match s.pc
    case ChangeJoin => s.(slot := s.slot.(tid := None, chosen := false), pc := ChangeSelect)
    case ChangeSelect => if choice then s.(slot := s.slot.(chosen := true), pc := ChangeLower) else s.(pc := Idle)
    case ChangeLower => s.(slot := s.slot.(stop := false), pc := ChangeSpawn)
    case ChangeSpawn => SpawnSlot(s, kind, Idle)
    case _ => s
  }

  /** `sync_support_window_geometry`; `choice` is whether the secondary column is visible. */
  function DoLayout(s: State, choice: bool): State {
    match s.pc
    case LayoutSync =>
      if choice then
        if s.dock.win.Some? then s.(pc := LayoutDone)
        else
          s.(dock := s.dock.(win := Some(s.wins.next)), wins := Open(s.wins),
             pc := if s.dock.active then LayoutDone else LayoutDockLower)
      else s.(pc := if s.dock.win.Some? then DockStop(false) else LayoutDone)
    case LayoutDockLower => s.(dock := s.dock.(stop := false), pc := LayoutDockSpawn)
    case LayoutDockSpawn => SpawnDock(s, LayoutDone)
    case LayoutDone => s.(flags := s.flags.(paused := false), pc := Idle)
    case _ => s
  }

  /** `destroy_support_column` and the joins of the shutdown. */
  function DoJoin(s: State): State {
    match s.pc
    case DockStop(quit) =>
      if s.dock.active then s.(dock := s.dock.(stop := true), pc := DockJoin(quit))
      else s.(pc := AfterDockJoin(s, quit))
    case DockJoin(quit) => s.(dock := s.dock.(active := false), pc := AfterDockJoin(s, quit))
    case QuitJoin(i) => s.(pc := if i < 3 then QuitJoin(i + 1) else DockStop(true))
    case SlotStop =>
      if s.slot.tid.Some? then s.(slot := s.slot.(stop := true), pc := SlotJoin)
      else s.(pc := AfterSlotJoin(s))
    case SlotJoin => s.(slot := s.slot.(tid := None), pc := AfterSlotJoin(s))
    case _ => s
  }

  function Delete(s: State, d: Doomed): State {
    s.(wins := Close(s.wins, WindowOf(s, d)), pc := Deleted(d))
  }

  function Forget(s: State, d: Doomed): State {
    match d
    case DockWindow(quit) => s.(dock := s.dock.(win := None), pc := AfterDock(quit))
    case SlotWindow => s.(slot := s.slot.(win := None), pc := Deleting(TopWindow(0)))
    case TopWindow(i) => s.(pc := if i < 3 then Deleting(TopWindow(i + 1)) else Done)
  }

  /** The main thread's own next program step. */
  function DoAdvance(s: State, choice: bool, kind: Kind): State {
    if Booting(s.pc) then DoBoot(s, choice, kind)
    else if Changing(s.pc) then DoChange(s, choice, kind)
    else if LayingOut(s.pc) then DoLayout(s, choice)
    else if Joining(s.pc) then DoJoin(s)
    else match s.pc
      case Deleting(d) => Delete(s, d)
      case Deleted(d) => Forget(s, d)
      case _ => s
  }

  function DoMain(s: State, m: MainStep): State
    requires MainEnabled(s, m)
  {
    match m
    case AskUi => s.(mode := AsksUi)
    case GetUi => s.(mode := HasUi, ui := Some(Main))
    case GiveUi => s.(mode := Plain, ui := None)
    case AskLeaf(l) => s.(mode := AsksLeaf(l))
    case GetLeaf => s.(mode := HasLeaf(s.mode.m), leaves := s.leaves[s.mode.m := Main])
    case GiveLeaf => s.(mode := Plain, leaves := s.leaves - {s.mode.m})
    case KeyChange =>
      if s.slot.chosen then s.(slot := s.slot.(stop := true), pc := ChangeJoin) else s.(pc := ChangeSelect)
    case KeyLayout(pause) => s.(flags := s.flags.(paused := s.flags.paused || pause), pc := LayoutSync)
    case KeyTop => s.(flags := s.flags.(showTop := !s.flags.showTop))
    case KeyQuit => s.(flags := s.flags.(stop := true), pc := QuitJoin(0))
    case SetPaused(b) => s.(flags := s.flags.(paused := b))
    case Advance(choice, kind) => DoAdvance(s, choice, kind)
  }

  predicate Enabled(s: State, step: Step) {
    match step
    case ByWorker(t, w) => WorkerEnabled(s, t, w)
    case ByMain(m) => MainEnabled(s, m)
  }

  function Do(s: State, step: Step): State
    requires Enabled(s, step)
  {
    match step
    case ByWorker(t, w) => DoWorker(s, t, w)
    case ByMain(m) => DoMain(s, m)
  }

  // ---------------------------------------------------------------- runs

  predicate ValidRun(s: State, run: seq<Step>)
    decreases |run|
  {
    run == [] || (Enabled(s, run[0]) && ValidRun(Do(s, run[0]), run[1..]))
  }

  function End(s: State, run: seq<Step>): State
    requires ValidRun(s, run)
    decreases |run|
  {
    if run == [] then s else End(Do(s, run[0]), run[1..])
  }

  ghost predicate Reachable(s: State) {
    exists budget, showTop, run ::
      var s0 := Init(budget, showTop);
      ValidRun(s0, run) && End(s0, run) == s
  }
}
