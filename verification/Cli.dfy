/** Command lines: `trfx_parse_cli` (`trfx_cli`). */
module Cli {
  import opened CStrings
  import opened History

  datatype Mode =
    | Tui | Help | Version | Interfaces | Connections | Listeners | SystemInfo | Diagnostics | Drop | Kill | Rejected

  /** What `--json`, `--proto` and `--state` set. */
  datatype Listing = Listing(json: bool, hasProto: bool, proto: string, hasState: bool, state: string)

  /** What `kill` and `drop` act on. */
  datatype Target = Target(
    hasPid: bool, pid: string, hasDrop: bool, kind: string, proto: string, local: string, remote: string)

  datatype Options = Options(
    mode: Mode, listing: Listing, target: Target, hasProfile: bool, profile: string, confirmed: bool, error: string)

  const NO_LISTING: Listing := Listing(false, false, "", false, "")
  const NO_TARGET: Target := Target(false, "", false, "", "", "", "")
  const DEFAULTS: Options := Options(Tui, NO_LISTING, NO_TARGET, false, "", false, "")

  const ERROR_MAX: nat := 128

  /** `is_command`. */
  function Command(arg: string): Option<Mode> {
    if arg == "interfaces" then Some(Interfaces)
    else if arg == "connections" then Some(Connections)
    else if arg == "listeners" then Some(Listeners)
    else if arg == "system" then Some(SystemInfo)
    else if arg == "diagnostics" then Some(Diagnostics)
    else if arg == "drop" then Some(Drop)
    else if arg == "kill" then Some(Kill)
    else None
  }

  const STATES: seq<string> :=
    ["ESTABLISHED", "SYN_SENT", "SYN_RECV", "FIN_WAIT1", "FIN_WAIT2", "TIME_WAIT", "CLOSE", "CLOSE_WAIT", "LAST_ACK",
     "LISTEN", "CLOSING", "NEW_SYN_RECV", "UNCONN", "UNKNOWN"]

  predicate IsState(value: string) {
    value in STATES
  }

  function ProtoName(value: string): Option<string> {
    if value == "tcp" || value == "TCP" then Some("TCP")
    else if value == "udp" || value == "UDP" then Some("UDP")
    else None
  }

  function Unknown(o: Options, arg: string): Options {
    o.(mode := Rejected, error := Fit("unknown argument: " + arg, ERROR_MAX))
  }

  function Complaint(o: Options, text: string): Options {
    o.(mode := Rejected, error := Fit(text, ERROR_MAX))
  }

  predicate IsYes(arg: string) {
    arg == "--yes" || arg == "-y"
  }

  // ---------------------------------------------------------------- the grammar as functions

  /** Arguments read to the end, or up to one that does not belong there. */
  datatype Scan<T> = Fine(value: T) | Stuck(value: T, arg: string)

  /** The confirmations behind a kill or a drop. */
  function Confirmations(confirmed: bool, tail: seq<string>): Scan<bool>
    decreases |tail|
  {
    if tail == [] then Fine(confirmed)
    else if IsYes(tail[0]) then Confirmations(true, tail[1..])
    else Stuck(confirmed, tail[0])
  }

  function Confirmed(o: Options, tail: seq<string>): Options {
    match Confirmations(o.confirmed, tail)
    case Fine(confirmed) => o.(confirmed := confirmed)
    case Stuck(confirmed, arg) => Unknown(o.(confirmed := confirmed), arg)
  }

  function KillTarget(t: Target, pid: string): Target {
    t.(hasPid := true, pid := Fit(pid, 16))
  }

  function ParseKill(o: Options, args: seq<string>): Options
    requires |args| >= 2
  {
    Confirmed(o.(mode := Kill, target := KillTarget(o.target, args[1])), args[2..])
  }

  function DropTarget(t: Target, args: seq<string>): Scan<Target>
    requires |args| >= 5
  {
    var t1 := t.(kind := Fit(args[1], 16));
    match ProtoName(args[2])
    case None => Stuck(t1, args[2])
    case Some(proto) =>
      var t2 := t1.(proto := proto, local := Fit(args[3], 64), remote := Fit(args[4], 64), hasDrop := true);
      if t2.kind != "connection" && t2.kind != "socket" then Stuck(t2, t2.kind) else Fine(t2)
  }

  function ParseDrop(o: Options, args: seq<string>): Options
    requires |args| >= 5
  {
    match DropTarget(o.target, args)
    case Fine(target) => Confirmed(o.(mode := Drop, target := target), args[5..])
    case Stuck(target, arg) => Unknown(o.(target := target), arg)
  }

  /** The options of a listing command; only `connections` takes filters. */
  function ListingOptions(l: Listing, filters: bool, rest: seq<string>): Scan<Listing>
    decreases |rest|
  {
    if rest == [] then Fine(l)
    else if rest[0] == "--json" then
      if l.json then Stuck(l, rest[0]) else ListingOptions(l.(json := true), filters, rest[1..])
    else if rest[0] == "--proto" then
      if !filters || |rest| < 2 || l.hasProto then Stuck(l, rest[0])
      else
        match ProtoName(rest[1])
        case None => Stuck(l, rest[1])
        case Some(proto) => ListingOptions(l.(proto := proto, hasProto := true), filters, rest[2..])
    else if rest[0] == "--state" then
      if !filters || |rest| < 2 || l.hasState then Stuck(l, rest[0])
      else if !IsState(rest[1]) then Stuck(l, rest[1])
      else ListingOptions(l.(state := rest[1], hasState := true), filters, rest[2..])
    else Stuck(l, rest[0])
  }

  function ParseListingCommand(o: Options, mode: Mode, rest: seq<string>): Options {
    match ListingOptions(o.listing, mode == Connections, rest)
    case Fine(l) => o.(mode := mode, listing := l)
    case Stuck(l, arg) => Unknown(o.(listing := l), arg)
  }

  /** A single word. */
  function ParseWord(o: Options, arg: string): Options {
    if arg == "--help" || arg == "-h" then o.(mode := Help)
    else if arg == "--version" || arg == "-v" then o.(mode := Version)
    else if arg == "kill" then Complaint(o, "kill requires a PID")
    else if arg == "drop" then Complaint(o, "drop requires a target type and endpoints")
    else
      match Command(arg)
      case Some(mode) => o.(mode := mode)
      case None => Unknown(o, arg)
  }

  /** Everything behind a profile. */
  function ParseBody(o: Options, args: seq<string>): Options
    requires args != []
  {
    if |args| == 1 then ParseWord(o, args[0])
    else if args[0] == "kill" then ParseKill(o, args)
    else if args[0] == "drop" && |args| >= 5 then ParseDrop(o, args)
    else
      match Command(args[0])
      case Some(mode) => ParseListingCommand(o, mode, args[1..])
      case None => Unknown(o, args[0])
  }

  /** The arguments behind the program's name. */
  function Parse(args: seq<string>): Options {
    if args == [] then DEFAULTS
    else if args[0] == "--profile" then
      if |args| == 1 then Complaint(DEFAULTS, "profile requires a name")
      else
        var o := DEFAULTS.(profile := Fit(args[1], 64), hasProfile := true);
        if |args| == 2 then o else ParseBody(o, args[2..])
    else ParseBody(DEFAULTS, args)
  }

  // ---------------------------------------------------------------- the parser

  lemma StatesFit(value: string)
    requires IsState(value)
    ensures Fit(value, 32) == value
  {
    assert forall i :: 0 <= i < |STATES| ==> |STATES[i]| < 32;
  }

  method ParseConfirmations(o: Options, argv: seq<string>, start: nat) returns (options: Options)
    requires start <= |argv|
    ensures options == Confirmed(o, argv[start..])
  {
    options := o;
    var i := start;
    while i < |argv|
      invariant start <= i <= |argv|
      invariant options == o.(confirmed := options.confirmed)
      invariant Confirmations(options.confirmed, argv[i..]) == Confirmations(o.confirmed, argv[start..])
    {
      assert argv[i..][1..] == argv[i + 1..];
      if argv[i] == "--yes" || argv[i] == "-y" {
        options := options.(confirmed := true);
      } else {
        return Unknown(options, argv[i]);
      }
      i := i + 1;
    }
  }

  /** One option of a listing command, at index `i`: the options after it and the next index, or a complaint. */
  method TakeListingOption(o: Options, argv: seq<string>, i: nat) returns (ok: bool, options: Options, next: nat)
    requires i < |argv|
    ensures ok ==> i < next <= |argv| && options == o.(listing := options.listing)
    ensures ok ==> ListingOptions(o.listing, o.mode == Connections, argv[i..]) ==
                   ListingOptions(options.listing, o.mode == Connections, argv[next..])
    ensures !ok ==> ListingOptions(o.listing, o.mode == Connections, argv[i..]).Stuck?
    ensures !ok ==> ListingOptions(o.listing, o.mode == Connections, argv[i..]).value == o.listing
    ensures !ok ==> options == Unknown(o, ListingOptions(o.listing, o.mode == Connections, argv[i..]).arg)
  {
    ok, options, next := true, o, i + 1;
    var arg := argv[i];
    ghost var rest := argv[i..];
    assert rest[1..] == argv[i + 1..];
    assert |rest| >= 2 ==> rest[2..] == argv[i + 2..] && rest[1] == argv[i + 1];
    if arg == "--json" {
      if o.listing.json {
        return false, Unknown(o, arg), i;
      }
      options := o.(listing := o.listing.(json := true));
    } else if arg == "--proto" {
      if o.mode != Connections || i + 1 >= |argv| || o.listing.hasProto {
        return false, Unknown(o, arg), i;
      }
      var proto := ProtoName(argv[i + 1]);
      if proto.None? {
        return false, Unknown(o, argv[i + 1]), i;
      }
      options := o.(listing := o.listing.(proto := proto.value, hasProto := true));
      next := i + 2;
    } else if arg == "--state" {
      if o.mode != Connections || i + 1 >= |argv| || o.listing.hasState {
        return false, Unknown(o, arg), i;
      }
      var value := argv[i + 1];
      if !IsState(value) {
        return false, Unknown(o, value), i;
      }
      StatesFit(value);
      options := o.(listing := o.listing.(state := Fit(value, 32), hasState := true));
      next := i + 2;
    } else {
      return false, Unknown(o, arg), i;
    }
  }

  method ParseListing(o: Options, mode: Mode, argv: seq<string>, start: nat) returns (options: Options)
    requires start <= |argv|
    ensures options == ParseListingCommand(o, mode, argv[start..])
  {
    options := o.(mode := mode);
    var i := start;
    while i < |argv|
      invariant start <= i <= |argv|
      invariant options == o.(mode := mode, listing := options.listing)
      invariant ListingOptions(options.listing, mode == Connections, argv[i..]) ==
                ListingOptions(o.listing, mode == Connections, argv[start..])
    {
      var ok;
      ok, options, i := TakeListingOption(options, argv, i);
      if !ok {
        return;
      }
    }
  }

  /** `trfx_parse_cli`. The vector starts with the program's name, if it has any entry at all. */
  method ParseCli(arguments: seq<string>) returns (options: Options)
    ensures options == Parse(if arguments == [] then [] else arguments[1..])
  {
    var argv := arguments;
    options := DEFAULTS;
    if |argv| <= 1 {
      return;
    }
    if |argv| == 2 && argv[1] == "--profile" {
      return options.(mode := Rejected, error := Fit("profile requires a name", ERROR_MAX));
    }
    if |argv| >= 3 && argv[1] == "--profile" {
      options := options.(profile := Fit(argv[2], 64));
      options := options.(hasProfile := true);
      if |argv| == 3 {
        return;
      }
      argv := argv[2..];
      assert argv[1..] == arguments[1..][2..];
    }
    options := ParseArguments(options, argv);
  }

  method ParseArguments(o: Options, argv: seq<string>) returns (options: Options)
    requires |argv| > 1
    ensures options == ParseBody(o, argv[1..])
  {
    options := o;
    ghost var args := argv[1..];
    if |argv| == 2 {
      var arg := argv[1];
      if arg == "--help" || arg == "-h" {
        return options.(mode := Help);
      }
      if arg == "--version" || arg == "-v" {
        return options.(mode := Version);
      }
      if arg == "kill" {
        return options.(mode := Rejected, error := Fit("kill requires a PID", ERROR_MAX));
      }
      if arg == "drop" {
        return options.(mode := Rejected, error := Fit("drop requires a target type and endpoints", ERROR_MAX));
      }
      if arg == "diagnostics" {
        return options.(mode := Diagnostics);
      }
      var mode := Command(arg);
      if mode.Some? {
        return options.(mode := mode.value);
      }
    }
    if |argv| >= 3 && argv[1] == "kill" {
      assert args[2..] == argv[3..] && args[1] == argv[2];
      var target := options.target.(hasPid := true, pid := Fit(argv[2], 16));
      options := ParseConfirmations(options.(mode := Kill, target := target), argv, 3);
      return;
    }
    if |argv| >= 6 && argv[1] == "drop" {
      options := ParseDropArguments(options, argv);
      return;
    }
    if |argv| >= 3 {
      var mode := Command(argv[1]);
      if mode.Some? {
        assert args[1..] == argv[2..];
        options := ParseListing(options, mode.value, argv, 2);
        return;
      }
    }
    options := Unknown(options, argv[1]);
  }

  method ParseDropArguments(o: Options, argv: seq<string>) returns (options: Options)
    requires |argv| >= 6
    ensures options == ParseDrop(o, argv[1..])
  {
    ghost var args := argv[1..];
    assert args[1] == argv[2] && args[2] == argv[3] && args[3] == argv[4] && args[4] == argv[5];
    var target := o.target.(kind := Fit(argv[2], 16));
    var proto := ProtoName(argv[3]);
    if proto.None? {
      return Unknown(o.(target := target), argv[3]);
    }
    target := target.(proto := proto.value, local := Fit(argv[4], 64), remote := Fit(argv[5], 64), hasDrop := true);
    if target.kind != "connection" && target.kind != "socket" {
      return Unknown(o.(target := target), target.kind);
    }
    assert args[5..] == argv[6..];
    options := ParseConfirmations(o.(mode := Drop, target := target), argv, 6);
  }
}
