/** Controlled actions: requests, reviews, execution and the audit ring (`trfx_actions`). */
module Actions {
  import opened CStrings
  import opened EndpointCodec
  import opened History
  import opened Samples

  datatype ActionKind = NoAction | KillProcess | DropConnection | DropSocket | UnlistedKind

  datatype TargetKind = NoTarget | ProcessTarget | ConnectionTarget | SocketTarget

  datatype Target = Target(
    kind: TargetKind, pid: string, process: string, protocol: string, local: string, remote: string, inode: string)

  datatype Request = Request(
    kind: ActionKind, target: Target, requiresConfirmation: bool, requiresPermissionCheck: bool,
    title: string, description: string)

  datatype Permission = UnknownPermission | Allowed | Denied | UnsupportedPermission

  datatype Review = Review(
    request: Request, permission: Permission, canExecute: bool, requiresConfirmation: bool,
    prompt: string, details: string)

  datatype Status = Ok | Cancelled | PermissionDenied | Unsupported | Invalid | NotFound | Failed

  datatype ActionResult = ActionResult(request: Request, status: Status, errno: int, message: string)

  datatype AuditEntry = AuditEntry(at: int, request: Request, status: Status, message: string)

  const AUDIT_MAX: nat := 8
  const MESSAGE_SIZE: nat := 256
  const ADDRESS_SIZE: nat := 64

  // ---------------------------------------------------------------- the operating system

  /** What opening and reading `/proc/<pid>/status` gives. */
  datatype UidLookup = NoProcess | NoUid | Uid(uid: nat)

  /** How the child that was to run `ss` ends. */
  datatype SsOutcome = ForkFailed(errno: int) | WaitFailed(errno: int) | Exited(code: int) | NotExited

  /** Answers of the system: a lookup by the text of a pid, `kill` returning 0 or an `errno`, `ss` by its
      arguments, error texts and the clock. */
  datatype System = System(
    uidOf: string -> UidLookup, kill: int -> int, ss: seq<string> -> SsOutcome, strerror: int -> string, now: int)

  const EPERM: int := 1
  const ESRCH: int := 3

  /** What an execution does outside the program. */
  datatype Effect = Sigterm(pid: int) | RunSs(argv: seq<string>)

  // ---------------------------------------------------------------- requests

  const ZeroRequest: Request := Request(NoAction, Target(NoTarget, "", "", "", "", "", ""), false, false, "", "")

  const InitialRequest: Request :=
    Request(NoAction, Target(NoTarget, "", "", "", "", "", ""), true, true, "no action", "no action selected")

  /** `set_string`: an empty or missing text becomes the placeholder. */
  function SetString(value: string, size: nat): string {
    Fit(if value == "" then "-" else value, size)
  }

  function KillRequest(pid: string, process: string): Request {
    var p, name := SetString(pid, 16), SetString(process, 64);
    Request(KillProcess, Target(ProcessTarget, p, name, "", "", "", ""), true, true,
            Fit("kill process " + p, 128), Fit("kill process " + p + " (" + name + ")", 256))
  }

  function DropTarget(kind: TargetKind, pid: string, process: string, protocol: string, local: string, remote: string,
                      inode: string): Target {
    Target(kind, SetString(pid, 16), SetString(process, 64), SetString(protocol, 8), SetString(local, ADDRESS_SIZE),
           SetString(remote, ADDRESS_SIZE), inode)
  }

  function DropConnectionRequest(connection: Option<Connection>): Request {
    match connection
    case None =>
      InitialRequest.(kind := DropConnection, target := InitialRequest.target.(kind := ConnectionTarget),
                      title := "drop connection", description := "drop selected connection")
    case Some(c) =>
      var t := DropTarget(ConnectionTarget, c.pid, c.process, c.protocol, c.local, c.remote, "-");
      Request(DropConnection, t, true, true, Fit("drop connection " + t.remote, 128),
              Fit("drop " + t.protocol + " " + t.local + " -> " + t.remote + " (" + t.pid + "/" + t.process + ")", 256))
  }

  /** The target carries the owner's addresses only; its ports are left out. */
  function DropSocketRequest(owner: Option<SocketOwner>): Request {
    match owner
    case None =>
      InitialRequest.(kind := DropSocket, target := InitialRequest.target.(kind := SocketTarget),
                      title := "drop socket", description := "drop selected socket")
    case Some(o) =>
      var t := DropTarget(SocketTarget, o.pid, o.process, o.proto, o.laddr, o.raddr, "");
      Request(DropSocket, t, true, true, Fit("drop socket " + t.local, 128),
              Fit("drop " + t.protocol + " socket " + t.local + " -> " + t.remote + " (" + t.pid + "/" + t.process + ")", 256))
  }

  function KindName(kind: ActionKind): string {
    match kind
    case KillProcess => "kill process"
    case DropConnection => "drop connection"
    case DropSocket => "drop socket"
    case NoAction | UnlistedKind => "none"
  }

  function StatusName(status: Status): string {
    match status
    case Ok => "ok"
    case Cancelled => "cancelled"
    case PermissionDenied => "permission denied"
    case Unsupported => "unsupported"
    case NotFound => "not found"
    case Failed => "failed"
    case Invalid => "invalid"
  }

  // ---------------------------------------------------------------- reviews

  const InitialReview: Review :=
    Review(ZeroRequest, UnknownPermission, false, false, "no action selected", "no action selected")

  function PrepareReview(request: Option<Request>, effectiveUid: nat, targetUid: nat, supported: bool): Review {
    match request
    case None => InitialReview
    case Some(r) =>
      var review := InitialReview.(request := r, requiresConfirmation := r.requiresConfirmation,
                                   details := Fit(r.description, 256));
      if !supported then
        review.(permission := UnsupportedPermission,
                prompt := Fit(KindName(r.kind) + " is not supported on this system", 256))
      else if r.requiresPermissionCheck && effectiveUid != 0 && effectiveUid != targetUid then
        review.(permission := Denied,
                prompt := Fit("permission denied: requires root or uid " + Decimal(targetUid), 256))
      else
        review.(permission := Allowed, canExecute := true,
                prompt := Fit("confirm " + Fit(r.description, 241) + "?", 256))
  }

  // ---------------------------------------------------------------- deciding

  /** The value of a C `int` that a wider number is cut down to. */
  function Int32(n: int): (r: int)
    ensures -0x8000_0000 <= r < 0x8000_0000
    ensures -0x8000_0000 <= n < 0x8000_0000 ==> r == n
  {
    (n + 0x8000_0000) % 0x1_0000_0000 - 0x8000_0000
  }

  /** `parse_pid_value`: the whole text is a positive number in the range of `long`, cut down to `pid_t`. */
  function PidValue(pid: string): Option<int> {
    if pid == "" then None
    else
      var scan := Strtol(pid);
      if scan.overflow || scan.rest != "" || scan.value <= 0 then None else Some(Int32(scan.value))
  }

  /** A buffer of `capacity` bytes after writing a text; 0 stands for a missing buffer, which stays as it is. */
  function WriteError(capacity: nat, text: string): string {
    if capacity == 0 then "" else Fit(text, capacity)
  }

  datatype Outcome = Outcome(status: Status, errno: int, message: string, error: string, effects: seq<Effect>)

  predicate HasMessage(o: Outcome) {
    o.message != "" && |o.message| < MESSAGE_SIZE
  }

  /** Most outcomes report their message in the error buffer too. */
  function Reported(status: Status, errno: int, text: string, capacity: nat, effects: seq<Effect>): (o: Outcome)
    ensures text != "" ==> HasMessage(o)
  {
    var message := Fit(text, MESSAGE_SIZE);
    Outcome(status, errno, message, WriteError(capacity, message), effects)
  }

  function ProcessText(pid: string): string {
    "process " + pid + " not found"
  }

  function LookupError(lookup: UidLookup, pid: string): string {
    if lookup.NoProcess? then ProcessText(pid) else "uid unavailable for process " + pid
  }

  function DecideKill(r: Request, effectiveUid: nat, capacity: nat, os: System): (o: Outcome)
    ensures HasMessage(o)
  {
    var pid := r.target.pid;
    var value, lookup := PidValue(pid), os.uidOf(pid);
    if value.None? then
      Reported(Invalid, 0, "invalid process id: " + (if pid == "" then "-" else pid), capacity, [])
    else if !lookup.Uid? then
      Outcome(NotFound, 0, Fit(ProcessText(pid), MESSAGE_SIZE), WriteError(capacity, LookupError(lookup, pid)), [])
    else if effectiveUid != 0 && effectiveUid != lookup.uid then
      Reported(PermissionDenied, 0, "permission denied: requires root or uid " + Decimal(lookup.uid), capacity, [])
    else DecideSent(value.value, pid, capacity, os)
  }

  /** After `kill`. */
  function DecideSent(value: int, pid: string, capacity: nat, os: System): (o: Outcome)
    ensures HasMessage(o)
  {
    var errno, sent := os.kill(value), [Sigterm(value)];
    if errno == 0 then Reported(Ok, 0, "sent SIGTERM to " + pid, capacity, sent)
    else if errno == ESRCH then Reported(NotFound, errno, ProcessText(pid), capacity, sent)
    else if errno == EPERM then
      Reported(PermissionDenied, errno, "permission denied while killing " + pid, capacity, sent)
    else Reported(Failed, errno, "failed to kill " + pid + ": " + os.strerror(errno), capacity, sent)
  }

  function Arguments(protocol: string, local: HostPort, remote: HostPort): seq<string> {
    ["ss", "-K", if protocol == "UDP" then "udp" else "tcp", "src", local.host, "sport", local.port,
     "dst", remote.host, "dport", remote.port]
  }

  /** Both endpoints of a target, split. */
  function Endpoints(t: Target): Option<(HostPort, HostPort)> {
    match (SplitEndpoint(t.local, ENDPOINT_SIZE, PORT_SIZE), SplitEndpoint(t.remote, ENDPOINT_SIZE, PORT_SIZE))
    case (Some(local), Some(remote)) => Some((local, remote))
    case _ => None
  }

  const SS_MISSING: string := "ss is not installed"
  const NO_ENDPOINTS: string := "connection endpoints unavailable"
  const SS_REFUSED: string := "ss could not drop the selected target"

  /** Why `ss` did not succeed. */
  function SsError(outcome: SsOutcome, os: System): string {
    match outcome
    case ForkFailed(errno) => "failed to launch ss: " + os.strerror(errno)
    case WaitFailed(errno) => "failed to wait for ss: " + os.strerror(errno)
    case Exited(code) => if code == 127 then SS_MISSING else SS_REFUSED
    case NotExited => SS_REFUSED
  }

  /** A drop that failed with this text in the error buffer. */
  function DropFailure(kind: ActionKind, error: string, effects: seq<Effect>): (o: Outcome)
    ensures HasMessage(o)
  {
    if error == "" then Outcome(Unsupported, 0, Fit(KindName(kind) + " is not supported yet", MESSAGE_SIZE), error, effects)
    else
      Outcome(if Contains(error, "not installed") then Unsupported else Failed, 0, Fit(error, MESSAGE_SIZE), error, effects)
  }

  function DecideDrop(r: Request, effectiveUid: nat, capacity: nat, os: System): (o: Outcome)
    ensures HasMessage(o)
  {
    if effectiveUid != 0 then
      Reported(PermissionDenied, 0, "permission denied: root required to drop sockets", capacity, [])
    else
      match Endpoints(r.target)
      case None => DropFailure(r.kind, WriteError(capacity, NO_ENDPOINTS), [])
      case Some(ends) =>
        var argv := Arguments(r.target.protocol, ends.0, ends.1);
        if os.ss(argv) == Exited(0) then Reported(Ok, 0, KindName(r.kind) + " completed", capacity, [RunSs(argv)])
        else DropFailure(r.kind, WriteError(capacity, SsError(os.ss(argv), os)), [RunSs(argv)])
  }

  /** The decision table of an execution. */
  function Decide(request: Option<Request>, confirmed: bool, effectiveUid: nat, capacity: nat, os: System): (o: Outcome)
    ensures HasMessage(o)
  {
    if request.None? || request.value.kind.NoAction? then Reported(Invalid, 0, "no action selected", capacity, [])
    else if !confirmed then Reported(Cancelled, 0, "action cancelled", capacity, [])
    else if request.value.kind.KillProcess? then DecideKill(request.value, effectiveUid, capacity, os)
    else if request.value.kind.DropConnection? || request.value.kind.DropSocket? then
      DecideDrop(request.value, effectiveUid, capacity, os)
    else Reported(Unsupported, 0, KindName(request.value.kind) + " is not supported yet", capacity, [])
  }

  // ---------------------------------------------------------------- the audit ring and execution

  /** Every record and every effect ever made are `recorded` and `effects`; the ring keeps the last 8. */
  class ActionLog {
    var entries: array<AuditEntry>
    var next: nat
    var count: nat
    ghost var recorded: seq<AuditEntry>
    ghost var effects: seq<Effect>

    ghost predicate Valid()
      reads this, entries
    {
      && entries.Length == AUDIT_MAX && next < AUDIT_MAX && count <= AUDIT_MAX
      && (count < AUDIT_MAX ==> next == count)
      && Unrolled(entries[..], if count < AUDIT_MAX then 0 else next, count) == LastN(recorded, AUDIT_MAX)
    }

    constructor ()
      ensures Valid() && fresh(entries) && recorded == [] && effects == []
    {
      entries := new AuditEntry[AUDIT_MAX](_ => AuditEntry(0, ZeroRequest, Ok, ""));
      next, count := 0, 0;
      recorded, effects := [], [];
    }

    method Append(entry: AuditEntry)
      requires Valid()
      modifies this`next, this`count, this`recorded, entries
      ensures Valid() && recorded == old(recorded) + [entry]
    {
      ghost var data := entries[..];
      if count < AUDIT_MAX {
        RingGrows(data, 0, count, recorded, entry);
        WrapOnce(0 + count, AUDIT_MAX);
      } else {
        RingTurns(data, next, recorded, entry);
        WrapOnce(next + AUDIT_MAX, AUDIT_MAX);
      }
      WrapOnce(next + 1, AUDIT_MAX);
      entries[next] := entry;
      assert entries[..] == data[next := entry];
      next := (next + 1) % AUDIT_MAX;
      if count < AUDIT_MAX {
        count := count + 1;
      }
      recorded := recorded + [entry];
    }

    /** `trfx_record_action_audit`; a missing request or result is replaced. */
    method Record(request: Option<Request>, result: Option<ActionResult>, now: int)
      requires Valid()
      modifies this`next, this`count, this`recorded, entries
      ensures Valid()
      ensures recorded == old(recorded) + [EntryFor(request, result, now)]
    {
      var entry := AuditEntry(now, InitialRequest, Invalid, "no result available");
      if request.Some? {
        entry := entry.(request := request.value);
      }
      if result.Some? {
        entry := entry.(status := result.value.status);
        if result.value.message != "" {
          entry := entry.(message := Fit(result.value.message, MESSAGE_SIZE));
        } else {
          entry := entry.(message := Fit(StatusName(result.value.status), MESSAGE_SIZE));
        }
      }
      Append(entry);
    }

    method AuditCount() returns (n: nat)
      requires Valid()
      ensures n == |LastN(recorded, AUDIT_MAX)|
    {
      n := count;
    }

    /** Newest first. */
    method AuditAt(index: nat) returns (entry: Option<AuditEntry>)
      requires Valid()
      ensures var newestFirst := Reversed(LastN(recorded, AUDIT_MAX));
              entry == if index < |newestFirst| then Some(newestFirst[index]) else None
    {
      entry := None;
      if index < count {
        var pos := (next + AUDIT_MAX - 1 - index) % AUDIT_MAX;
        entry := Some(entries[pos]);
        ghost var head := if count < AUDIT_MAX then 0 else next;
        WrapOnce(next + AUDIT_MAX - 1 - index, AUDIT_MAX);
        WrapOnce(head + (count - 1 - index), AUDIT_MAX);
        assert entries[..][pos] == Unrolled(entries[..], head, count)[count - 1 - index];
      }
    }

    /** `run_ss_drop_action`: whether `ss` succeeded, and the error buffer. */
    method RunSsDrop(request: Request, capacity: nat, os: System) returns (ok: bool, error: string)
      modifies this`effects
      ensures var ends := Endpoints(request.target);
              if ends.None? then !ok && error == WriteError(capacity, NO_ENDPOINTS) && effects == old(effects)
              else
                var argv := Arguments(request.target.protocol, ends.value.0, ends.value.1);
                && effects == old(effects) + [RunSs(argv)]
                && ok == (os.ss(argv) == Exited(0))
                && error == if ok then "" else WriteError(capacity, SsError(os.ss(argv), os))
    {
      error := "";
      var local := SplitEndpoint(request.target.local, ENDPOINT_SIZE, PORT_SIZE);
      if local.None? {
        return false, WriteError(capacity, "connection endpoints unavailable");
      }
      var remote := SplitEndpoint(request.target.remote, ENDPOINT_SIZE, PORT_SIZE);
      if remote.None? {
        return false, WriteError(capacity, "connection endpoints unavailable");
      }
      SplitPartsNonempty(request.target.local);
      SplitPartsNonempty(request.target.remote);
      var argv := BuildArguments(request.target.protocol, local.value, remote.value);
      effects := effects + [RunSs(argv)];
      ok, error := JudgeOutcome(os.ss(argv), capacity, os);
    }

    /** Fills the result's status and message, reports the message in the error buffer and records the result. */
    method Finish(request: Option<Request>, now: int, result: ActionResult, status: Status, errno: int, text: string,
                  capacity: nat) returns (r: ActionResult, error: string)
      requires Valid() && text != ""
      modifies this`next, this`count, this`recorded, entries
      ensures Valid()
      ensures r == result.(status := status, errno := errno, message := Fit(text, MESSAGE_SIZE))
      ensures error == WriteError(capacity, r.message)
      ensures recorded == old(recorded) + [EntryFor(request, Some(r), now)]
    {
      r := result.(status := status, errno := errno, message := Fit(text, MESSAGE_SIZE));
      error := WriteError(capacity, r.message);
      Record(request, Some(r), now);
    }

    method ExecuteKill(request: Request, result: ActionResult, effectiveUid: nat, capacity: nat, os: System)
      returns (r: ActionResult, error: string)
      requires Valid() && result.request == request
      modifies this, entries
      ensures Valid() && entries == old(entries)
      ensures Shows(r, error, request, DecideKill(request, effectiveUid, capacity, os))
      ensures effects == old(effects) + DecideKill(request, effectiveUid, capacity, os).effects
      ensures recorded == old(recorded) + [AuditEntry(os.now, request, r.status, r.message)]
    {
      var pid := request.target.pid;
      var value := PidValue(pid);
      if value.None? {
        r, error := Finish(Some(request), os.now, result, Invalid, 0,
                           "invalid process id: " + (if pid != "" then pid else "-"), capacity);
        return;
      }
      var lookup := os.uidOf(pid);
      if !lookup.Uid? {
        error := WriteError(capacity, LookupError(lookup, pid));
        r := result.(status := NotFound, errno := 0, message := Fit("process " + pid + " not found", MESSAGE_SIZE));
        if capacity > 0 && error == "" {
          error := WriteError(capacity, r.message);
        }
        Record(Some(request), Some(r), os.now);
        return;
      }
      if effectiveUid != 0 && effectiveUid != lookup.uid {
        r, error := Finish(Some(request), os.now, result, PermissionDenied, 0,
                           "permission denied: requires root or uid " + Decimal(lookup.uid), capacity);
        return;
      }
      effects := effects + [Sigterm(value.value)];
      var errno := os.kill(value.value);
      if errno != 0 {
        if errno == ESRCH {
          r, error := Finish(Some(request), os.now, result, NotFound, errno, "process " + pid + " not found", capacity);
        } else if errno == EPERM {
          r, error := Finish(Some(request), os.now, result, PermissionDenied, errno,
                             "permission denied while killing " + pid, capacity);
        } else {
          r, error := Finish(Some(request), os.now, result, Failed, errno,
                             "failed to kill " + pid + ": " + os.strerror(errno), capacity);
        }
        return;
      }
      r, error := Finish(Some(request), os.now, result, Ok, 0, "sent SIGTERM to " + pid, capacity);
    }

    method ExecuteDrop(request: Request, result: ActionResult, effectiveUid: nat, capacity: nat, os: System)
      returns (r: ActionResult, error: string)
      requires Valid() && result.request == request
      modifies this, entries
      ensures Valid() && entries == old(entries)
      ensures Shows(r, error, request, DecideDrop(request, effectiveUid, capacity, os))
      ensures effects == old(effects) + DecideDrop(request, effectiveUid, capacity, os).effects
      ensures recorded == old(recorded) + [AuditEntry(os.now, request, r.status, r.message)]
    {
      if effectiveUid != 0 {
        r, error := Finish(Some(request), os.now, result, PermissionDenied, 0,
                           "permission denied: root required to drop sockets", capacity);
        return;
      }
      var ok;
      ok, error := RunSsDrop(request, capacity, os);
      if !ok {
        r := result.(errno := 0);
        if capacity > 0 && error != "" {
          if Contains(error, "not installed") {
            r := r.(status := Unsupported);
          } else {
            r := r.(status := Failed);
          }
          r := r.(message := Fit(error, MESSAGE_SIZE));
        } else {
          r := r.(status := Unsupported, message := Fit(KindName(request.kind) + " is not supported yet", MESSAGE_SIZE));
        }
        Record(Some(request), Some(r), os.now);
        return;
      }
      r, error := Finish(Some(request), os.now, result, Ok, 0, KindName(request.kind) + " completed", capacity);
    }

    /** `trfx_execute_action_request`: exactly one audit entry, with the returned status and message. */
    method Execute(request: Option<Request>, confirmed: bool, effectiveUid: nat, capacity: nat, os: System)
      returns (r: ActionResult, error: string)
      requires Valid()
      modifies this, entries
      ensures Valid() && entries == old(entries)
      ensures Shows(r, error, if request.Some? then request.value else ZeroRequest,
                    Decide(request, confirmed, effectiveUid, capacity, os))
      ensures effects == old(effects) + Decide(request, confirmed, effectiveUid, capacity, os).effects
      ensures recorded == old(recorded) + [AuditEntry(os.now, if request.Some? then request.value else InitialRequest,
                                                      r.status, r.message)]
    {
      var result := ActionResult(ZeroRequest, Invalid, 0, "no action selected");
      if request.Some? {
        result := result.(request := request.value);
      }
      if request.None? || request.value.kind == NoAction {
        r, error := Finish(request, os.now, result, Invalid, 0, "no action selected", capacity);
        return;
      }
      if !confirmed {
        r, error := Finish(request, os.now, result, Cancelled, 0, "action cancelled", capacity);
        return;
      }
      if request.value.kind == KillProcess {
        r, error := ExecuteKill(request.value, result, effectiveUid, capacity, os);
        return;
      }
      if request.value.kind == DropConnection || request.value.kind == DropSocket {
        r, error := ExecuteDrop(request.value, result, effectiveUid, capacity, os);
        return;
      }
      r, error := Finish(request, os.now, result, Unsupported, 0,
                         KindName(request.value.kind) + " is not supported yet", capacity);
    }
  }

  /** The argument vector of `ss`; a part without host or port is left out. */
  method BuildArguments(protocol: string, local: HostPort, remote: HostPort) returns (argv: seq<string>)
    ensures local.host != "" && local.port != "" && remote.host != "" && remote.port != "" ==>
              argv == Arguments(protocol, local, remote)
  {
    argv := ["ss", "-K"];
    if protocol == "UDP" {
      argv := argv + ["udp"];
    } else {
      argv := argv + ["tcp"];
    }
    if local.host != "" && local.port != "" {
      argv := argv + ["src", local.host, "sport", local.port];
    }
    if remote.host != "" && remote.port != "" {
      argv := argv + ["dst", remote.host, "dport", remote.port];
    }
  }

  /** What `run_ss_drop_action` makes of the child's end. */
  method JudgeOutcome(outcome: SsOutcome, capacity: nat, os: System) returns (ok: bool, error: string)
    ensures ok == (outcome == Exited(0))
    ensures error == if ok then "" else WriteError(capacity, SsError(outcome, os))
  {
    ok, error := false, "";
    if outcome.ForkFailed? {
      error := WriteError(capacity, "failed to launch ss: " + os.strerror(outcome.errno));
    } else if outcome.WaitFailed? {
      error := WriteError(capacity, "failed to wait for ss: " + os.strerror(outcome.errno));
    } else if outcome.Exited? && outcome.code == 0 {
      ok := true;
    } else if outcome.Exited? && outcome.code == 127 {
      error := WriteError(capacity, "ss is not installed");
    } else {
      error := WriteError(capacity, "ss could not drop the selected target");
    }
  }

  /** The result and error buffer that an outcome stands for. */
  ghost predicate Shows(result: ActionResult, error: string, request: Request, o: Outcome) {
    result == ActionResult(request, o.status, o.errno, o.message) && error == o.error
  }

  /** The audit entry of an outcome. */
  function EntryFor(request: Option<Request>, result: Option<ActionResult>, now: int): AuditEntry {
    AuditEntry(now, if request.Some? then request.value else InitialRequest,
               if result.Some? then result.value.status else Invalid,
               if result.None? then "no result available"
               else Fit(if result.value.message != "" then result.value.message else StatusName(result.value.status),
                        MESSAGE_SIZE))
  }

  lemma SplitPartsNonempty(endpoint: string)
    requires SplitEndpoint(endpoint, ENDPOINT_SIZE, PORT_SIZE).Some?
    ensures var r := SplitEndpoint(endpoint, ENDPOINT_SIZE, PORT_SIZE).value; r.host != "" && r.port != ""
  {
    var port := SplitSound(endpoint, ENDPOINT_SIZE, PORT_SIZE);
  }
}
