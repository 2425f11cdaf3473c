/** What the decision table of `trfx_actions` guarantees. */
module ActionProperties {
  import opened Actions
  import opened CStrings
  import opened EndpointCodec
  import opened History
  import opened Samples

  // ---------------------------------------------------------------- effects

  predicate RootOrOwner(effectiveUid: nat, lookup: UidLookup) {
    lookup.Uid? && (effectiveUid == 0 || effectiveUid == lookup.uid)
  }

  /** A signal may be sent: confirmed, a valid pid, and root or the owner of that same pid. */
  ghost predicate MaySignal(request: Option<Request>, confirmed: bool, effectiveUid: nat, os: System) {
    && request.Some? && request.value.kind.KillProcess? && confirmed
    && PidValue(request.value.target.pid).Some?
    && RootOrOwner(effectiveUid, os.uidOf(request.value.target.pid))
  }

  predicate IsDrop(kind: ActionKind) {
    kind.DropConnection? || kind.DropSocket?
  }

  /** `ss` may be run: confirmed, root, and both endpoints split. */
  ghost predicate MayDrop(request: Option<Request>, confirmed: bool, effectiveUid: nat) {
    && request.Some? && IsDrop(request.value.kind) && confirmed && effectiveUid == 0
    && Endpoints(request.value.target).Some?
  }

  function DropArguments(t: Target): seq<string>
    requires Endpoints(t).Some?
  {
    Arguments(t.protocol, Endpoints(t).value.0, Endpoints(t).value.1)
  }

  /** At most one effect, and exactly when it is permitted: the signal to the named pid, or `ss` with the
      split endpoints. */
  lemma EffectsExactly(request: Option<Request>, confirmed: bool, effectiveUid: nat, capacity: nat, os: System)
    ensures Decide(request, confirmed, effectiveUid, capacity, os).effects ==
            if MaySignal(request, confirmed, effectiveUid, os) then [Sigterm(PidValue(request.value.target.pid).value)]
            else if MayDrop(request, confirmed, effectiveUid) then [RunSs(DropArguments(request.value.target))]
            else []
  {
    if request.Some? && confirmed {
      KillEffects(request.value, effectiveUid, capacity, os);
      DropEffects(request.value, effectiveUid, capacity, os);
    }
  }

  lemma KillEffects(r: Request, effectiveUid: nat, capacity: nat, os: System)
    ensures var o := DecideKill(r, effectiveUid, capacity, os);
            if PidValue(r.target.pid).Some? && RootOrOwner(effectiveUid, os.uidOf(r.target.pid))
            then o == DecideSent(PidValue(r.target.pid).value, r.target.pid, capacity, os)
                 && o.effects == [Sigterm(PidValue(r.target.pid).value)]
                 && (o.status == Ok <==> os.kill(PidValue(r.target.pid).value) == 0)
            else o.effects == [] && o.status in {Invalid, NotFound, PermissionDenied}
  {
  }

  lemma DropEffects(r: Request, effectiveUid: nat, capacity: nat, os: System)
    ensures var o := DecideDrop(r, effectiveUid, capacity, os);
            if effectiveUid == 0 && Endpoints(r.target).Some?
            then o.effects == [RunSs(DropArguments(r.target))]
                 && (o.status == Ok <==> os.ss(DropArguments(r.target)) == Exited(0))
            else o.effects == [] && o.status in {PermissionDenied, Unsupported, Failed}
  {
  }

  /** Success means that the one permitted effect happened and the system accepted it. */
  lemma OkExactly(request: Option<Request>, confirmed: bool, effectiveUid: nat, capacity: nat, os: System)
    ensures Decide(request, confirmed, effectiveUid, capacity, os).status == Ok <==>
            || (MaySignal(request, confirmed, effectiveUid, os) && os.kill(PidValue(request.value.target.pid).value) == 0)
            || (MayDrop(request, confirmed, effectiveUid) && os.ss(DropArguments(request.value.target)) == Exited(0))
  {
    if request.Some? && confirmed {
      KillEffects(request.value, effectiveUid, capacity, os);
      DropEffects(request.value, effectiveUid, capacity, os);
    }
  }

  /** Without an effect the status says why. */
  lemma RefusalExactly(request: Option<Request>, confirmed: bool, effectiveUid: nat, capacity: nat, os: System)
    requires Decide(request, confirmed, effectiveUid, capacity, os).effects == []
    ensures var status := Decide(request, confirmed, effectiveUid, capacity, os).status;
            && status != Ok
            && (request.None? || request.value.kind.NoAction? ==> status == Invalid)
            && (request.Some? && !request.value.kind.NoAction? ==>
                  && (status == Cancelled <==> !confirmed)
                  && (confirmed && request.value.kind.KillProcess? ==>
                        var pid := request.value.target.pid;
                        && (status == Invalid <==> PidValue(pid).None?)
                        && (status == NotFound <==> PidValue(pid).Some? && !os.uidOf(pid).Uid?)
                        && (status == PermissionDenied <==> PidValue(pid).Some? && os.uidOf(pid).Uid?))
                  && (confirmed && IsDrop(request.value.kind) ==>
                        (status == PermissionDenied <==> effectiveUid != 0)))
  {
  }

  // ---------------------------------------------------------------- reviews

  /** A successful execution was reviewable as executable on the same uids. */
  lemma OkWasReviewed(request: Option<Request>, confirmed: bool, effectiveUid: nat, capacity: nat, os: System, targetUid: nat)
    requires Decide(request, confirmed, effectiveUid, capacity, os).status == Ok
    requires request.value.kind.KillProcess? ==> os.uidOf(request.value.target.pid) == Uid(targetUid)
    ensures confirmed && PrepareReview(request, effectiveUid, targetUid, true).canExecute
  {
    OkExactly(request, confirmed, effectiveUid, capacity, os);
  }

  /** For a kill of a process that exists, the review foretells the execution exactly when the pid is valid and the
      request asks for the permission check or the user has the permission anyway, or when the pid is not valid and
      the check refuses. */
  lemma ReviewForetellsKill(request: Request, effectiveUid: nat, capacity: nat, os: System, targetUid: nat)
    requires request.kind.KillProcess? && os.uidOf(request.target.pid) == Uid(targetUid)
    ensures (PrepareReview(Some(request), effectiveUid, targetUid, true).canExecute <==>
             Decide(Some(request), true, effectiveUid, capacity, os).effects != [])
            <==> if PidValue(request.target.pid).Some?
                 then request.requiresPermissionCheck || RootOrOwner(effectiveUid, Uid(targetUid))
                 else request.requiresPermissionCheck && !RootOrOwner(effectiveUid, Uid(targetUid))
  {
    EffectsExactly(Some(request), true, effectiveUid, capacity, os);
  }

  /** For a drop they agree exactly when root drops endpoints that split, or when a user other than root asks for the
      permission check and is not the target's user: the review looks neither at the endpoints nor for root. */
  lemma ReviewForetellsDrop(request: Request, effectiveUid: nat, capacity: nat, os: System, targetUid: nat)
    requires IsDrop(request.kind)
    ensures (PrepareReview(Some(request), effectiveUid, targetUid, true).canExecute <==>
             Decide(Some(request), true, effectiveUid, capacity, os).effects != [])
            <==> if effectiveUid == 0 then Endpoints(request.target).Some?
                 else request.requiresPermissionCheck && effectiveUid != targetUid
  {
    EffectsExactly(Some(request), true, effectiveUid, capacity, os);
  }

  /** Root dropping a listed socket owner is one input on which they differ: the review lets it go on, and no
      execution of it does anything. */
  lemma RootSocketDropReviewed(owner: SocketOwner, hexIp: string, hexPort: string, capacity: nat, os: System, targetUid: nat)
    requires ScanHex(hexIp, |hexIp|).Some? && ScanHex(hexPort, |hexPort|).Some?
    requires owner.laddr == HexToIpPort(hexIp, hexPort).host
    ensures var request := Some(DropSocketRequest(Some(owner)));
            && PrepareReview(request, 0, targetUid, true).canExecute
            && Decide(request, true, 0, capacity, os).effects == []
            && Decide(request, true, 0, capacity, os).status != Ok
  {
    SocketDropNeverRuns(owner, hexIp, hexPort, true, 0, capacity, os);
  }

  /** The owner of a connection, not being root, is another: reviewed as executable, then refused for want of root. */
  lemma OwnerDropReviewed(request: Request, uid: nat, capacity: nat, os: System)
    requires IsDrop(request.kind) && uid != 0
    ensures PrepareReview(Some(request), uid, uid, true).canExecute
    ensures Decide(Some(request), true, uid, capacity, os).status == PermissionDenied
    ensures Decide(Some(request), true, uid, capacity, os).effects == []
  {
    EffectsExactly(Some(request), true, uid, capacity, os);
  }

  // ---------------------------------------------------------------- the signalled process

  /** The number that gets the signal is the number that the request names exactly when it fits a `pid_t`. */
  lemma SignalledPid(pid: string)
    requires PidValue(pid).Some?
    ensures Strtol(pid).value > 0 && Strtol(pid).rest == ""
    ensures PidValue(pid).value == Strtol(pid).value <==> Strtol(pid).value < 0x8000_0000
  {
  }

  /** A printed process number is signalled itself. */
  lemma PrintedPidRoundTrip(n: nat)
    requires 0 < n < 0x8000_0000
    ensures PidValue(Decimal(n)) == Some(n)
  {
    StrtolDecimal(n);
  }

  lemma ShortPid(n: nat)
    requires n < 0x8000_0000
    ensures |Decimal(n)| < 16 && Decimal(n) != "" && SetString(Decimal(n), 16) == Decimal(n)
  {
    PortLength(n);
  }

  /** A confirmed kill request for a process number signals exactly that process, if the user is root or its owner. */
  lemma KillRequestSignals(n: nat, process: string, effectiveUid: nat, capacity: nat, os: System)
    requires 0 < n < 0x8000_0000 && RootOrOwner(effectiveUid, os.uidOf(Decimal(n)))
    ensures Decide(Some(KillRequest(Decimal(n), process)), true, effectiveUid, capacity, os).effects == [Sigterm(n)]
  {
    ShortPid(n);
    PrintedPidRoundTrip(n);
    EffectsExactly(Some(KillRequest(Decimal(n), process)), true, effectiveUid, capacity, os);
  }

  // ---------------------------------------------------------------- drops

  lemma NoColonNoSplit(endpoint: string)
    requires ':' !in endpoint
    ensures SplitEndpoint(endpoint, ENDPOINT_SIZE, PORT_SIZE).None?
  {
    if SplitEndpoint(endpoint, ENDPOINT_SIZE, PORT_SIZE).Some? {
      var port := SplitSound(endpoint, ENDPOINT_SIZE, PORT_SIZE);
      var host := SplitEndpoint(endpoint, ENDPOINT_SIZE, PORT_SIZE).value.host;
      ColonInside(endpoint, host, port);
      assert false;
    }
  }

  lemma ColonInside(endpoint: string, host: string, port: string)
    requires Splits(endpoint, host, port)
    ensures ':' in endpoint
  {
    if endpoint[0] == '[' {
      assert endpoint[|host| + 2] == ':';
    } else {
      assert endpoint[|host|] == ':';
    }
  }

  lemma DottedHasNoColon(b: seq<nat>)
    requires |b| == 4
    ensures ':' !in Dotted(b)
  {
  }

  /** A socket's address without its port never reaches `ss`, whoever confirms it. */
  lemma SocketDropNeverRuns(owner: SocketOwner, hexIp: string, hexPort: string, confirmed: bool, effectiveUid: nat,
                            capacity: nat, os: System)
    requires ScanHex(hexIp, |hexIp|).Some? && ScanHex(hexPort, |hexPort|).Some?
    requires owner.laddr == HexToIpPort(hexIp, hexPort).host
    ensures var o := Decide(Some(DropSocketRequest(Some(owner))), confirmed, effectiveUid, capacity, os);
            o.effects == [] && o.status != Ok
  {
    var request := DropSocketRequest(Some(owner));
    DottedHasNoColon(MemoryBytes(ScanHex(hexIp, |hexIp|).value.value));
    assert ':' !in owner.laddr;
    assert forall i :: 0 <= i < |request.target.local| ==> request.target.local[i] != ':';
    NoColonNoSplit(request.target.local);
    EffectsExactly(Some(request), confirmed, effectiveUid, capacity, os);
    OkExactly(Some(request), confirmed, effectiveUid, capacity, os);
  }

  lemma TargetSplits(t: Target, local: HostPort, remote: HostPort)
    requires |t.local| < ADDRESS_SIZE && Splits(t.local, local.host, local.port) && |local.port| < PORT_SIZE
    requires |t.remote| < ADDRESS_SIZE && Splits(t.remote, remote.host, remote.port) && |remote.port| < PORT_SIZE
    ensures Endpoints(t) == Some((local, remote))
  {
    HostShorter(t.local, local.host, local.port);
    HostShorter(t.remote, remote.host, remote.port);
    SplitComplete(t.local, ENDPOINT_SIZE, PORT_SIZE, local.host, local.port);
    SplitComplete(t.remote, ENDPOINT_SIZE, PORT_SIZE, remote.host, remote.port);
  }

  /** A connection whose endpoints split is dropped with exactly their hosts and ports. */
  lemma ConnectionDropArguments(c: Connection, local: HostPort, remote: HostPort, capacity: nat, os: System)
    requires |c.local| < ADDRESS_SIZE && |c.remote| < ADDRESS_SIZE
    requires Splits(c.local, local.host, local.port) && |local.port| < PORT_SIZE
    requires Splits(c.remote, remote.host, remote.port) && |remote.port| < PORT_SIZE
    requires |c.protocol| < 8
    ensures Decide(Some(DropConnectionRequest(Some(c))), true, 0, capacity, os).effects
            == [RunSs(["ss", "-K", if c.protocol == "UDP" then "udp" else "tcp", "src", local.host, "sport", local.port,
                       "dst", remote.host, "dport", remote.port])]
  {
    var request := DropConnectionRequest(Some(c));
    assert request.target.local == c.local && request.target.remote == c.remote;
    TargetSplits(request.target, local, remote);
    assert request.target.protocol == "UDP" <==> c.protocol == "UDP";
    EffectsExactly(Some(request), true, 0, capacity, os);
  }

  lemma HostShorter(endpoint: string, host: string, port: string)
    requires Splits(endpoint, host, port)
    ensures |host| < |endpoint|
  {
  }

  /** From the kernel's table to the command: an IPv4 connection listed by the kernel, confirmed by root, is
      dropped by its own addresses and ports. */
  lemma KernelConnectionDropped(c: Connection, a: seq<nat>, ap: nat, b: seq<nat>, bp: nat, ntop: seq<nat> -> string,
                                capacity: nat, os: System)
    requires IsBytes(a, 4) && IsBytes(b, 4) && ap < 65536 && bp < 65536 && c.protocol in {"TCP", "UDP"}
    requires c.local == EndpointText(KernelV4(a, ap), ntop) && c.remote == EndpointText(KernelV4(b, bp), ntop)
    ensures Decide(Some(DropConnectionRequest(Some(c))), true, 0, capacity, os).effects
            == [RunSs(["ss", "-K", if c.protocol == "UDP" then "udp" else "tcp",
                       "src", Dotted(a), "sport", Decimal(ap), "dst", Dotted(b), "dport", Decimal(bp)])]
  {
    V4RoundTrip(a, ap, ntop);
    V4RoundTrip(b, bp, ntop);
    V4Splits(a, ap);
    V4Splits(b, bp);
    DottedShort(a);
    DottedShort(b);
    PortLength(ap);
    PortLength(bp);
    ConnectionDropArguments(c, HostPort(Dotted(a), Decimal(ap)), HostPort(Dotted(b), Decimal(bp)), capacity, os);
  }

  lemma V6Short(host: string, port: nat)
    requires 0 < |host| <= 45 && port < 65536
    ensures |"[" + host + "]:" + Decimal(port)| < ADDRESS_SIZE && |Decimal(port)| < PORT_SIZE
  {
    PortLength(port);
  }

  /** The same for an IPv6 connection. */
  lemma KernelV6ConnectionDropped(c: Connection, a: seq<nat>, ap: nat, b: seq<nat>, bp: nat, ntop: seq<nat> -> string,
                                  capacity: nat, os: System)
    requires IsBytes(a, 16) && IsBytes(b, 16) && ap < 65536 && bp < 65536 && c.protocol in {"TCP", "UDP"}
    requires PrintsV6(ntop)
    requires c.local == EndpointText(KernelV6(a, ap), ntop) && c.remote == EndpointText(KernelV6(b, bp), ntop)
    ensures Decide(Some(DropConnectionRequest(Some(c))), true, 0, capacity, os).effects
            == [RunSs(["ss", "-K", if c.protocol == "UDP" then "udp" else "tcp",
                       "src", ntop(a), "sport", Decimal(ap), "dst", ntop(b), "dport", Decimal(bp)])]
  {
    V6RoundTrip(a, ap, ntop);
    V6RoundTrip(b, bp, ntop);
    V6Splits(ntop(a), ap);
    V6Splits(ntop(b), bp);
    V6Short(ntop(a), ap);
    V6Short(ntop(b), bp);
    ConnectionDropArguments(c, HostPort(ntop(a), Decimal(ap)), HostPort(ntop(b), Decimal(bp)), capacity, os);
  }

  // ---------------------------------------------------------------- failed drops

  /** Three letters of "not installed" never stand as they do there. */
  predicate LikeNotI(s: string, i: nat)
    requires i + 4 < |s|
  {
    s[i] == 'n' && s[i + 2] == 't' && s[i + 4] == 'i'
  }

  ghost predicate NeverNotI(s: string) {
    forall i: nat :: i + 4 < |s| ==> !LikeNotI(s, i)
  }

  lemma {:induction false} AbsentText(s: string)
    requires NeverNotI(s)
    ensures !Contains(s, "not installed")
  {
    if "not installed" <= s {
      assert s[0] == "not installed"[0] && s[2] == "not installed"[2] && s[4] == "not installed"[4];
      assert LikeNotI(s, 0);
      assert false;
    }
    if s != "" {
      forall i: nat | i + 4 < |s[1..]|
        ensures !LikeNotI(s[1..], i)
      {
        assert !LikeNotI(s, i + 1);
      }
      AbsentText(s[1..]);
    }
  }

  lemma AbsentFromPrefix(s: string, capacity: nat)
    requires NeverNotI(s) && capacity > 0
    ensures !Contains(Fit(s, capacity), "not installed")
  {
    forall i: nat | i + 4 < |Fit(s, capacity)|
      ensures !LikeNotI(Fit(s, capacity), i)
    {
      assert !LikeNotI(s, i);
    }
    AbsentText(Fit(s, capacity));
  }

  lemma {:induction false} ContainsLetter(s: string, text: string, c: char)
    requires Contains(s, text) && c in text
    ensures c in s
  {
    if text <= s {
      var i :| 0 <= i < |text| && text[i] == c;
      assert s[..|text|] == text && s[i] == c;
    } else {
      ContainsLetter(s[1..], text, c);
    }
  }

  lemma {:induction false} ContainsAt(s: string, k: nat, text: string)
    requires k <= |s| && text <= s[k..]
    ensures Contains(s, text)
  {
    if k > 0 {
      assert s[1..][k - 1..] == s[k..];
      ContainsAt(s[1..], k - 1, text);
    }
  }

  /** The message about a missing `ss` is recognised exactly when the buffer holds all 19 letters of it. */
  lemma MissingSsRecognised(capacity: nat)
    requires capacity > 0
    ensures Contains(Fit(SS_MISSING, capacity), "not installed") <==> capacity >= 20
  {
    var s := SS_MISSING;
    assert |s| == 19;
    if capacity >= 20 {
      assert s[6..] == "not installed";
      ContainsAt(s, 6, "not installed");
    } else {
      assert forall i :: 0 <= i < 18 ==> s[i] != 'd';
      if Contains(Fit(s, capacity), "not installed") {
        assert "not installed"[12] == 'd';
        ContainsLetter(Fit(s, capacity), "not installed", 'd');
        assert false;
      }
    }
  }

  /** A drop that `ss` could not carry out because it is not installed counts as unsupported exactly when the
      caller's error buffer takes no text at all or the whole message; with a buffer of 2 to 19 bytes it counts
      as failed. */
  lemma MissingSsStatus(request: Request, capacity: nat, os: System)
    requires IsDrop(request.kind) && Endpoints(request.target).Some?
    requires os.ss(DropArguments(request.target)) == Exited(127)
    ensures var status := Decide(Some(request), true, 0, capacity, os).status;
            && status in {Unsupported, Failed}
            && (status == Unsupported <==> capacity < 2 || capacity >= 20)
  {
    if capacity >= 2 {
      MissingSsRecognised(capacity);
      assert Fit(SS_MISSING, capacity) != "";
    }
  }

  /** A drop without usable endpoints, or one that `ss` refused, counts as failed exactly when the error buffer
      takes any text. */
  lemma RefusedDropStatus(request: Request, capacity: nat, os: System)
    requires IsDrop(request.kind)
    requires Endpoints(request.target).Some? ==>
               var outcome := os.ss(DropArguments(request.target));
               outcome.NotExited? || (outcome.Exited? && outcome.code != 0 && outcome.code != 127)
    ensures var status := Decide(Some(request), true, 0, capacity, os).status;
            && status in {Unsupported, Failed}
            && (status == Failed <==> capacity >= 2)
  {
    TextsHaveNoMatch();
    DropFailed(request, capacity, os);
    if Endpoints(request.target).None? {
      FailureStatus(request.kind, NO_ENDPOINTS, capacity, []);
    } else {
      FailureStatus(request.kind, SS_REFUSED, capacity, [RunSs(DropArguments(request.target))]);
    }
  }

  lemma DropFailed(request: Request, capacity: nat, os: System)
    requires IsDrop(request.kind)
    requires Endpoints(request.target).Some? ==>
               var outcome := os.ss(DropArguments(request.target));
               outcome.NotExited? || (outcome.Exited? && outcome.code != 0 && outcome.code != 127)
    ensures Decide(Some(request), true, 0, capacity, os) ==
            if Endpoints(request.target).None? then DropFailure(request.kind, WriteError(capacity, NO_ENDPOINTS), [])
            else DropFailure(request.kind, WriteError(capacity, SS_REFUSED), [RunSs(DropArguments(request.target))])
  {
    var ends := Endpoints(request.target);
    if ends.Some? {
      SsFailed(request.kind, request.target, os.ss(DropArguments(request.target)), os);
    }
  }

  lemma SsFailed(kind: ActionKind, target: Target, outcome: SsOutcome, os: System)
    requires outcome.NotExited? || (outcome.Exited? && outcome.code != 0 && outcome.code != 127)
    ensures outcome != Exited(0) && SsError(outcome, os) == SS_REFUSED
  {
  }

  lemma FailureStatus(kind: ActionKind, text: string, capacity: nat, effects: seq<Effect>)
    requires NeverNotI(text) && text != ""
    ensures DropFailure(kind, WriteError(capacity, text), effects).status == if capacity >= 2 then Failed else Unsupported
  {
    if capacity > 0 {
      AbsentFromPrefix(text, capacity);
    }
  }

  lemma TextsHaveNoMatch()
    ensures NeverNotI(NO_ENDPOINTS) && NeverNotI(SS_REFUSED) && NO_ENDPOINTS != "" && SS_REFUSED != ""
  {
  }
}
