# Trafix: a verified model

Trafix is a terminal monitor for Linux networking. This project models the parts of it that keep state, compute or
parse, and proves what they promise. `dafny verify dfyconfig.toml` checks everything.

- **Lifecycle, LifecycleSafety, LifecycleProgress, LifecycleJoins, LifecycleFairness** — the dashboard's main thread and its drawing workers as an
  interleaved transition system: one step is a lock, an unlock, a draw, a flag check, a sleep tick, a thread start, a
  join or a window deletion. Runs are arbitrary sequences of enabled steps. Safety says that no worker ever draws on a
  deleted window. Progress says that nothing deadlocks, that every mutex is given back within a bounded number of its
  holder's own steps, that every join can return and does return under every strongly fair scheduler (one under which
  a worker that can act again and again does act), and that a shutdown ends under every scheduler.
- **Runtime** — the locked runtime flags with their whole history, and the sleeping loops, with other threads acting
  between any two looks at the flags.
- **Samples, InterfaceRates, BandwidthTrend, BandwidthReport** — the ring of snapshots, the rate calculator that
  tolerates counter resets, the four-point trend and the report that divides traffic over sockets or processes. Rates
  are exact reals, times whole seconds.
- **EndpointCodec** — kernel hex to endpoint text and endpoint text to host and port.
- **Actions, ActionProperties** — requests, reviews, executions and the audit ring. The uid lookup, `kill`, `ss`, error
  texts and the clock are parameters (`System`); signals and runs of `ss` are written to a ghost trace.
- **ConnectionTable** — the connection list: four kernel tables, the owner join and the sort.
- **JsonText, CliOutput** — an RFC 8259 decoder (sections 4, 5 and 7, with the unsigned integers of section 6 that the
  printers use), and the printers proved against it.
- **Config, ConfigReader, TextFile** — configuration lines, read in place from a 256-byte buffer, as an overlay.
- **Cli, CliProperties** — the command line.
- **InterfaceTable, TextClip, LogWindow, Cursors** — the exchange sort, the endpoint shortener, the log window and the
  cyclic cursors.
- **CStrings, History, Ordering** — C strings and numbers, "the last n of everything", in-place sorting.

Conventions: one `char` is one unsigned byte, and a `string` holds the bytes before the NUL. `snprintf` into a buffer of
a given size is `Fit`. A missing pointer is `None`; a missing error buffer is a capacity of 0. `%X` and `strtol` behave
as in glibc on a 64-bit little-endian machine. Static variables are fields of a class, and a locked operation is one
method. Files, kernel tables, the environment, user names and `inet_ntop` for IPv6 are parameters; of the last only
these facts are used: its result depends on the 16 bytes alone, has 1 to 45 characters and no `]`.

The lifecycle rests on these assumptions: `malloc`, `newwin` and `pthread_create` succeed and collectors return. Where
the code's own drawing or leaf locking depends on data, the model allows any amount up to an arbitrary budget and any
order, so it has every run the code has. Reading or writing one runtime flag under its lock is one step.

Where the code does something its texts do not say, the model follows the code:

- `trafix drop --json` is accepted as a drop without a target (`DropAccepted`).
- A socket drop can never succeed, as its request has no ports (`SocketDropNeverRuns`).
- The review looks neither at endpoints nor for root: it lets root go on with a socket drop that cannot do anything
  (`RootSocketDropReviewed`), and an owner with a drop that the execution then refuses (`OwnerDropReviewed`,
  `ReviewForetellsDrop`).
- Whether a missing `ss` is reported as unsupported depends on the size of the caller's buffer (`MissingSsStatus`).
- A process number of 2^31 or more is cut down before it is signalled (`SignalledPid`).
- The list's priority for TIME_WAIT is never used (`ListedStates`).
- A malformed number in a configuration line sets the default instead of being ignored (`MalformedSetsDefault`).
- A shortened endpoint loses its port although dots and port would just fit the buffer (`PortLostAtBoundary`,
  `SuffixSurvivesExactly`).
- With more than 64 owned connections the flows carry only part of the totals (`SocketModeCarries`).

## Model

| member | source | states |
|---|---|---|
| `LifecycleSafety.StepKeepsInv` | src/trfx_dashboard.c:1234-1343 | every step of the main thread or of a worker keeps the invariant: each live worker is the recorded one of its pane, its window is open, and flags, locks and records fit the place of the main thread |
| `LifecycleSafety.ReachableInv` | src/trfx_dashboard.c:1562-1669 | the invariant holds in every state that any interleaving of start-up, keys, workers and shutdown can reach |
| `LifecycleSafety.DrawsOnOpenWindow` | src/trfx_dashboard.c:1310-1323 | in every interleaving a worker about to draw has an open window |
| `LifecycleSafety.NoDrawAfterDelete` | src/trfx_dashboard.c:1284-1323 | after the main thread deleted a window, no worker takes a draw step on it in any continuation |
| `LifecycleSafety.GoneForGood` | src/trfx_dashboard.c:1310-1323 | a deleted window is never open again in any run |
| `LifecycleSafety.OneLiveWorkerPerPane` | src/trfx_dashboard.c:1234-1261 | each top place, the slot and the support column has at most one live worker |
| `LifecycleSafety.FlagLoweredAfterJoin` | src/trfx_dashboard.c:1310-1343 | a stop flag is lowered only when every worker it stopped has ended; the global flag is never lowered |
| `LifecycleSafety.WhereFlagsAreLowered` | src/trfx_dashboard.c:1234-1261 | the only places that lower a stop flag are the start of a new slot or column worker |
| `LifecycleSafety.ChangeKeepsMain` | src/trfx_dashboard.c:1234-1261 | replacing the slot's worker, cancelled or not, keeps the records and windows consistent |
| `LifecycleSafety.QuitJoinKeepsMain` | src/trfx_dashboard.c:1654-1659 | joining the four top workers in order leaves none of them live |
| `LifecycleSafety.DockJoinKeepsMain` | src/trfx_dashboard.c:1310-1323 | the support column's record goes only once its worker has exited |
| `LifecycleSafety.LayoutSyncKeepsMain` | src/trfx_dashboard.c:276-300 | showing and hiding the support column keeps windows and records consistent |
| `LifecycleSafety.DrawsExclusive` | src/trfx_threads.c:1356-1546 | a drawing worker excludes every other drawing worker and the main thread's locked drawing |
| `LifecycleProgress.LockOrder` | src/trfx_threads.c:2003-2231 | mutexes nest only as `ncurses_mutex` outside one leaf mutex, and joins are made with none held |
| `LifecycleProgress.WaitChain` | src/trfx_threads.c:2003-2231 | from any live worker a chain of at most two mutexes leads to an agent that can move |
| `LifecycleProgress.NoDeadlock` | src/trfx_dashboard.c:1562-1669 | no reachable state before the end is a deadlock |
| `LifecycleProgress.JoinTargetStopped` | src/trfx_dashboard.c:1284-1323 | whoever is joined exists, was told to stop, and no longer waits for readiness |
| `LifecycleProgress.StoppedWorkerEnds` | src/trfx_threads.c:68-83 | a worker told to stop takes at most 18 * budget + 16 more steps of its own in any interleaving |
| `LifecycleProgress.JoinTargetEnds` | src/trfx_dashboard.c:1284-1323 | the worker that a join waits for takes at most that many more steps of its own |
| `LifecycleJoins.EveryHolderLetsGo` | src/trfx_threads.c:1356-1546 | whoever holds `ncurses_mutex` or a leaf mutex, told to stop or not, has given it back by the time it took 3 * budget + 3 steps of its own |
| `LifecycleJoins.JoinCanReturn` | src/trfx_dashboard.c:1234-1323 | from every reachable join some run of the workers alone leads to the end of the joined worker, with the main thread still there and its join enabled |
| `LifecycleFairness.JoinReturns` | src/trfx_dashboard.c:1234-1323 | in every endless strongly fair schedule the worker that a join waits for ends, also while all other workers go on drawing |
| `LifecycleProgress.ShutdownDescends` | src/trfx_dashboard.c:1654-1668 | after the stop request every step of any thread uses up part of a finite measure |
| `LifecycleProgress.ShutdownCompletes` | src/trfx_dashboard.c:1654-1668 | every run after the stop request is short, and where nothing can step any more all workers have ended, all windows are deleted and no mutex is held |
| `LifecycleProgress.DrawIsReachable` | src/trfx_dashboard.c:1615-1652 | the start-up order leads to a ready dashboard in which a worker draws |
| `Runtime.RuntimeState.ConsumeStaticRefresh` | src/trfx_runtime.c:83-95 | consuming returns true exactly when a request-all came since the later of that pane's last consume and the last reset |
| `Runtime.RuntimeState.RequestStaticRefreshAll` | src/trfx_runtime.c:76-81 | a request reaches every pane and changes no other flag |
| `Runtime.RuntimeState.ResetAll` | src/trfx_runtime.c:24-32 | a reset clears readiness, pause, stop and every pending refresh |
| `Runtime.RuntimeState.Others` | src/trfx_runtime.c:24-95 | any sequence of operations of other threads keeps the flags equal to what the history says |
| `Runtime.RuntimeState.WaitForStaticRefresh` | src/trfx_threads.c:85-100 | the exact history of the wait, with arbitrary operations of other threads before each look and each consume: it turns on only after a consume that found nothing, never sleeps longer than asked, answers what its last consume found, and answers no only when the time is over or it saw a stop |
| `Runtime.WaitDelivers` | src/trfx_threads.c:85-100 | when nobody else resets or consumes, a wait answers yes exactly when a request was pending when it began or is made before its last consume |
| `Runtime.PendingIsFoundAtOnce` | src/trfx_threads.c:89-91 | a request pending at the start is found by the first consume, before any sleep |
| `Runtime.RuntimeState.Sleep` | src/trfx_threads.c:52-83 | the exact history of the sleeping loops: they never sleep longer than asked, sleep on only after a look that saw no stop, end early only at a look that saw one, and answer whether a further look sees one |
| `Runtime.EarlyEndIsStop` | src/trfx_threads.c:52-83 | without a reset, and with a local flag that stays up, an early end is answered as a stop |
| `Runtime.DeliveredOnce` | src/trfx_runtime.c:83-95 | a second consume without a request between finds nothing |
| `Runtime.NeverLost` | src/trfx_runtime.c:76-95 | a request stays pending until it is consumed or reset |
| `Runtime.StopLasts` | src/trfx_runtime.c:62-74 | without a reset a stop request stays in force |
| `Samples.SampleBuffer.Push` | src/trfx_netinfo.c:1184-1201 | the ring always holds the last 12 of everything pushed |
| `Samples.SampleBuffer.At` | src/trfx_netinfo.c:1210-1219 | samples are read oldest first; a null pointer only for an index past the end |
| `Samples.SampleBuffer.Count` | src/trfx_netinfo.c:1203-1208 | the count is the number of remembered samples |
| `History.RingAppends` | src/trfx_netinfo.c:1192-1197 | writing behind the last entry of a ring that is not full appends |
| `History.RingReplaces` | src/trfx_netinfo.c:1192-1200 | writing into a full ring and moving the head drops the oldest entry |
| `InterfaceRates.FindStat` | src/trfx_netinfo.c:551-558 | the first interface with the name |
| `InterfaceRates.CalculateInterfaceRates` | src/trfx_netinfo.c:560-593 | one rate per current interface: growth over elapsed time, 0 for a new interface or a counter that fell; -1 only without room or time |
| `InterfaceRates.SumRates` | src/trfx_bandwidth.c:53-62 | the sum over the rates |
| `InterfaceRates.DeltaVersusGrowth` | src/trfx_netinfo.c:572-590 | for the same uniquely named interfaces the summed deltas are at least the growth of the summed counters, and equal to it exactly when no counter fell |
| `BandwidthTrend.CollectTrend` | src/trfx_bandwidth.c:316-355 | the points are those of the newest adjacent samples in sample order, min(count - 1, 4) of them; the branches for missing samples are never taken |
| `BandwidthTrend.WindowTelescopes` | src/trfx_bandwidth.c:323-355 | over adjacent samples with advancing clocks and the same interfaces, rates times elapsed time sum to at least last minus first counters, with equality exactly when no counter fell |
| `BandwidthTrend.TrendTelescopes` | src/trfx_bandwidth.c:323-355 | the same for the trend of any push history |
| `BandwidthReport.CompareFlowsIsPreorder` | src/trfx_bandwidth.c:64-75 | the comparator is a total preorder |
| `Ordering.Sort` | src/trfx_bandwidth.c:77-83 | sorting in place gives a sorted permutation (in place of `qsort`) |
| `BandwidthReport.SortFlows` | src/trfx_bandwidth.c:77-83 | the flows end ordered by total, largest first, then by label, as a permutation of what was built |
| `BandwidthReport.CountOwned` | src/trfx_bandwidth.c:203-208 | the number of connections that have an owner |
| `BandwidthReport.BuildSocketFlows` | src/trfx_bandwidth.c:211-239 | one flow with an equal share per owned connection, in order, up to 64 |
| `BandwidthReport.FindProcessGroup` | src/trfx_bandwidth.c:105-118 | the index of the group with the owner's pid and process, or -1 |
| `BandwidthReport.GroupOwners` | src/trfx_bandwidth.c:245-267 | the first 64 distinct keys in order of appearance, each with its exact number of sockets |
| `BandwidthReport.CountOwner` | src/trfx_bandwidth.c:250-267 | one more owner is counted for its group, which is added while there is room; the total stays the sum of the counts |
| `BandwidthReport.GroupsAreExact` | src/trfx_bandwidth.c:245-267 | groups have different keys, exact multiplicities, and miss no key when there are at most 64 |
| `BandwidthReport.BuildGroupFlows` | src/trfx_bandwidth.c:269-287 | each group's flow is its part of the totals |
| `BandwidthReport.CollectReport` | src/trfx_bandwidth.c:151-297 | mode, rates, source text and ranked flows for the newest two samples of any buffer |
| `BandwidthReport.ProcessModeConserves` | src/trfx_bandwidth.c:269-289 | in process mode the flow rates sum exactly to the interface totals |
| `BandwidthReport.SocketModeCarries` | src/trfx_bandwidth.c:203-242 | in socket mode the flow sum times the owned sockets is the total times min(owned, 64) |
| `BandwidthReport.NewestPointIsReportTotal` | src/trfx_bandwidth.c:188-201 | the newest trend point is the sum of the report's interface rates for the same buffer |
| `EndpointCodec.ParseIpv6Hex` | src/trfx_connections.c:34-51 | succeeds exactly when all 16 pairs scan, and gives the bytes reversed within each word |
| `EndpointCodec.SwapWordsInvolution` | src/trfx_connections.c:41-47 | the byte reversal within words is its own inverse |
| `EndpointCodec.ParseIpPort` | src/trfx_connections.c:53-94 | the text of a field for any hex field, within 64 bytes |
| `EndpointCodec.V4RoundTrip` | src/trfx_connections.c:87-93 | every kernel-formatted IPv4 address and 16-bit port is decoded, printed and split into exactly that host and port |
| `EndpointCodec.V6RoundTrip` | src/trfx_connections.c:77-85 | the same for every IPv6 address |
| `EndpointCodec.DecodedTextSplits` | src/trfx_connections.c:53-94 | whatever the field, the text is the placeholder or splits into the printed host and port |
| `EndpointCodec.SplitComplete` | src/trfx_actions.c:67-100 | a text made of host and port is split into them, the port cut to its buffer |
| `EndpointCodec.SplitSound` | src/trfx_actions.c:67-100 | nothing else is split |
| `EndpointCodec.SplitsOneWay` | src/trfx_actions.c:76-99 | no text splits in two ways |
| `EndpointCodec.DashRejected` | src/trfx_actions.c:89-91 | the placeholder never splits |
| `EndpointCodec.DecodersAgree` | src/trfx_socket_owners.c:20-29 | `hex_to_ip_port` gives the same host and port as decoding and splitting, for every eight-digit address and every port |
| `Actions.ActionLog.Execute` | src/trfx_actions.c:543-676 | every call records exactly one audit entry with the returned status and message, and its outcome and effects are those of the decision table |
| `Actions.ActionLog.ExecuteKill` | src/trfx_actions.c:575-632 | the kill branch: status, message, errno, error buffer and at most one signal |
| `Actions.ActionLog.ExecuteDrop` | src/trfx_actions.c:634-668 | the drop branch, with the status chosen from the error buffer |
| `Actions.ActionLog.RunSsDrop` | src/trfx_actions.c:113-193 | `ss` runs only after both endpoints split, with exactly these arguments |
| `Actions.ActionLog.Record` | src/trfx_actions.c:228-259 | a record for any request and result, also missing ones |
| `Actions.ActionLog.Append` | src/trfx_actions.c:253-258 | the audit ring always holds the last 8 of everything recorded |
| `Actions.ActionLog.AuditAt` | src/trfx_actions.c:270-282 | entries are read newest first |
| `Actions.ActionLog.AuditCount` | src/trfx_actions.c:261-268 | the count is the number of remembered entries |
| `Actions.Decide` | src/trfx_actions.c:543-676 | every outcome has a non-empty message that fits its buffer |
| `ActionProperties.EffectsExactly` | src/trfx_actions.c:575-668 | the one effect happens exactly when permitted: SIGTERM if confirmed, the pid is valid and the user is root or its owner; `ss` if confirmed, root and both endpoints split |
| `ActionProperties.OkExactly` | src/trfx_actions.c:605-667 | success exactly when the permitted effect was accepted by the system |
| `ActionProperties.RefusalExactly` | src/trfx_actions.c:559-643 | without an effect the status says why, case by case |
| `ActionProperties.OkWasReviewed` | src/trfx_actions.c:433-472 | a successful execution was reviewed as executable on the same uids |
| `ActionProperties.ReviewForetellsKill` | src/trfx_actions.c:433-472 | for a process that exists, review and execution of a kill agree exactly when the pid is valid and the check is asked for or passes, or the pid is invalid and the check refuses |
| `ActionProperties.ReviewForetellsDrop` | src/trfx_actions.c:459-466 | for every drop, review and execution agree exactly when root drops endpoints that split, or another user asks for the check and is not the target's user |
| `ActionProperties.RootSocketDropReviewed` | src/trfx_actions.c:400-431 | root's drop of a listed socket is reviewed as executable and never does anything |
| `ActionProperties.OwnerDropReviewed` | src/trfx_actions.c:636-643 | the owner's drop is reviewed as executable and refused for want of root |
| `ActionProperties.SignalledPid` | src/trfx_actions.c:33-47 | the signalled number is the named number exactly when that is below 2^31 |
| `ActionProperties.PrintedPidRoundTrip` | src/trfx_actions.c:33-47 | a printed process number is signalled itself |
| `ActionProperties.SocketDropNeverRuns` | src/trfx_actions.c:400-431 | a socket drop, which carries addresses without ports, never reaches `ss` and never succeeds |
| `ActionProperties.ConnectionDropArguments` | src/trfx_actions.c:366-398 | a confirmed connection drop by root runs `ss` with exactly the hosts and ports of the connection |
| `ActionProperties.KernelConnectionDropped` | src/trfx_actions.c:142-161 | from the kernel's table to the command line: an IPv4 connection is dropped by its own addresses and ports |
| `ActionProperties.KernelV6ConnectionDropped` | src/trfx_actions.c:142-161 | the same for an IPv6 connection |
| `ActionProperties.KillRequestSignals` | src/trfx_actions.c:347-364 | a confirmed kill request for a process number signals exactly that process, if the user is root or its owner |
| `ActionProperties.MissingSsStatus` | src/trfx_actions.c:645-660 | a missing `ss` counts as unsupported exactly when the error buffer takes no text or all 19 letters; with 2 to 19 bytes it counts as failed |
| `ActionProperties.MissingSsRecognised` | src/trfx_actions.c:185-190 | the message is recognised exactly when the buffer has at least 20 bytes |
| `ActionProperties.RefusedDropStatus` | src/trfx_actions.c:645-660 | a drop without endpoints, or one `ss` refused, counts as failed exactly when the error buffer takes any text |
| `ConnectionTable.GetConnectionInfo` | src/trfx_connections.c:385-400 | the list is a permutation of the accepted rows of the four tables as far as they fit, each with its owner, sorted by state priority |
| `ConnectionTable.ParseConnectionTable` | src/trfx_connections.c:218-277 | appends the accepted rows of a table in order up to the cap |
| `ConnectionTable.TakeLine` | src/trfx_connections.c:237-263 | one line: malformed and skipped ones add nothing |
| `ConnectionTable.FindSocketOwner` | src/trfx_socket_owners.c:122-145 | the first map entry with the inode, or the placeholders when there is none or the inode is 0 |
| `ConnectionTable.FirstEntry` | src/trfx_socket_owners.c:133-142 | no earlier entry has the inode |
| `ConnectionTable.ApplySocketOwnerMap` | src/trfx_connections.c:296-309 | joins every row with its owner and changes nothing else |
| `ConnectionTable.CompareIsPreorder` | src/trfx_connections.c:279-294 | the comparator is a total preorder |
| `ConnectionTable.SortedStates` | src/trfx_connections.c:279-294 | established connections come first, then listeners, then all others |
| `ConnectionTable.ListedStates` | src/trfx_connections.c:209-216 | no connection of the collected list is in TIME_WAIT, CLOSE, CLOSE_WAIT, LAST_ACK or CLOSING, so one priority is never used |
| `ConnectionTable.ListedEndpointsSplit` | src/trfx_connections.c:248-253 | every endpoint of the collected list is the placeholder or splits |
| `CliOutput.Output.PrintJsonString` | src/trfx_cli_output.c:14-51 | byte by byte, the quoted and escaped string |
| `CliOutput.Output.PrintConnections` | src/trfx_cli_output.c:121-150 | the compact object whose array holds exactly the rows that match the filters |
| `CliOutput.Output.PrintListeners` | src/trfx_cli_output.c:167-192 | the same for the listeners |
| `CliOutput.Output.PrintInterfaces` | src/trfx_cli_output.c:91-103 | the same for the interfaces |
| `CliOutput.ConnectionsReadBack` | src/trfx_cli_output.c:121-150 | decoding the printed bytes by RFC 8259 gives exactly the filtered rows in order, every string recovered byte for byte |
| `CliOutput.ListenersReadBack` | src/trfx_cli_output.c:167-192 | the same for the listeners |
| `CliOutput.InterfacesReadBack` | src/trfx_cli_output.c:91-103 | the same for the interfaces |
| `JsonText.DecodeInvertsEmit` | src/trfx_cli_output.c:14-51 | decoding inverts emission for every value, whatever bytes its strings hold |
| `JsonText.ParseQuoted` | src/trfx_cli_output.c:14-51 | a quoted string is read back whole, whatever follows it |
| `ConfigReader.TrimWhitespace` | src/trfx_config.c:67-85 | in place: the text loses its outer spaces, nothing else in the buffer changes |
| `ConfigReader.Strtok` | src/trfx_config.c:108-109 | the token and the rest, cut in place |
| `ConfigReader.SplitLine` | src/trfx_config.c:103-117 | trimmed key and value of a line, none for comments, empty lines and lines without both |
| `ConfigReader.RuntimeConfig.ReadConfig` | src/trfx_config.c:87-154 | reading a file overlays its lines on the settings one by one |
| `ConfigReader.RuntimeConfig.Assign` | src/trfx_config.c:119-150 | one assignment, with the bounds and default of its key |
| `ConfigReader.RuntimeConfig.LoadRuntimeConfig` | src/trfx_config.c:201-236 | base and profile are overlaid in this order; false exactly when a profile is asked for and cannot be read |
| `ConfigReader.ProfilePath` | src/trfx_config.c:156-199 | a usable profile lies directly in the profile directory |
| `ConfigReader.ProfileOverlaysBase` | src/trfx_config.c:201-236 | base and profile set what one list of their lines would, within all bounds |
| `Config.ParseBoundedInt` | src/trfx_config.c:29-52 | the result is always within bounds |
| `Config.ParseBool` | src/trfx_config.c:54-65 | the result is always 0 or 1 |
| `Config.LastLineDecides` | src/trfx_config.c:97-151 | a key's final value depends only on the last line that assigns it |
| `Config.OverlayConcat` | src/trfx_config.c:97-151 | reading line lists one after the other is reading their concatenation |
| `Config.ReadingConcatenated` | src/trfx_config.c:213-234 | the same for file contents, when the first file ends its last line |
| `Config.OverlayIdempotent` | src/trfx_config.c:97-151 | rereading changes nothing |
| `Config.OverlayInRange` | src/trfx_config.c:119-146 | the nine bounded settings stay in range for every input |
| `Config.InitialInRange` | src/trfx_config.c:17-27 | the built-in settings are in range and equal the defaults |
| `Config.EntryOfLine` | src/trfx_config.c:107-117 | `key = value` with any spaces around is read as that key and value |
| `Config.SettingRoundTrip` | src/trfx_config.c:107-146 | a number written into a bounded setting's line is read back, or replaced by the default when out of range |
| `Config.MalformedSetsDefault` | src/trfx_config.c:29-65 | a value that is no numeral and no switch word sets the default of its bounded setting |
| `Config.KeyOfName` | src/trfx_config.c:119-144 | every setting is found by its name |
| `TextFile.ChunksConcat` | src/trfx_config.c:97 | `fgets` reads a text that ends its last line the same way in front of another |
| `Cli.ParseCli` | src/trfx_cli.c:76-266 | the index loops compute the grammar's options for every argument vector |
| `Cli.ParseListing` | src/trfx_cli.c:194-256 | the option loop of the listing commands |
| `Cli.ParseConfirmations` | src/trfx_cli.c:149-156 | the confirmation loops |
| `CliProperties.ConnectionsGrammar` | src/trfx_cli.c:194-256 | `connections` accepts exactly the lists of valid options in which no kind repeats |
| `CliProperties.ConnectionsAnyOrder` | src/trfx_cli.c:194-256 | any order of the same options gives the same result |
| `CliProperties.ConnectionsDuplicates` | src/trfx_cli.c:199-234 | a repeated option is rejected |
| `CliProperties.ConfirmedExactly` | src/trfx_cli.c:144-192 | an accepted command line is confirmed exactly when it is a kill or a full drop with a non-empty tail of only --yes and -y |
| `CliProperties.KillAccepted` | src/trfx_cli.c:144-159 | a kill is accepted exactly when only confirmations follow its pid |
| `CliProperties.DropAccepted` | src/trfx_cli.c:161-192 | an accepted drop has a full valid target, except for exactly `drop --json`, which has none |
| `CliProperties.ProfilePrefix` | src/trfx_cli.c:98-106 | a profile in front only adds the profile to what the rest parses to |
| `CliProperties.SecondProfileRejected` | src/trfx_cli.c:98-106 | a second profile is rejected |
| `InterfaceTable.ExchangeFrom` | src/trfx_threads.c:1164-1177 | the inner loop leaves an element that belongs before all later ones and permutes |
| `InterfaceTable.SortedInterfaces` | src/trfx_threads.c:1157-1177 | the nested loops give a permutation of the first 20 statuses sorted by rank and name |
| `InterfaceTable.OrderShowsActiveFirst` | src/trfx_threads.c:944-957 | the active interface is first, those that are up follow, names ascend within a rank |
| `TextClip.ShortenedFits` | src/trfx_utils.c:61-96 | the output fits, short text is unchanged, long text fills the buffer |
| `TextClip.PrefixKept` | src/trfx_utils.c:61-96 | what is kept in front is a prefix of the input, followed by dots above four bytes |
| `TextClip.SuffixSurvivesExactly` | src/trfx_utils.c:85-95 | the whole `:port` of a text that does not end with a dot survives exactly when it and four more bytes are less than the buffer |
| `TextClip.PortLostAtBoundary` | src/trfx_utils.c:88 | an input at the boundary whose dots and port would fit and whose port is dropped |
| `TextClip.PortSurvives` | src/trfx_utils.c:85-92 | a shortened endpoint without brackets splits into the same port |
| `TextClip.ShortenTwice` | src/trfx_utils.c:61-96 | shortening twice is shortening once |
| `TextClip.ClipIsLongestPrefix` | src/trfx_utils.c:44-59 | clipping gives the longest prefix that width and buffer allow |
| `LogWindow.LogSnapshot.Add` | src/trfx_diagnostics.c:36-57 | the window always holds the last 12 of everything added; empty lines are not added |
| `LogWindow.LogSnapshot.CollectFile` | src/trfx_diagnostics.c:79-102 | adds every non-empty line of a file and says whether there was one |
| `LogWindow.LogSnapshot.At` | src/trfx_diagnostics.c:191-197 | lines are read newest first |
| `LogWindow.CollectedTogether` | src/trfx_diagnostics.c:88-94 | collecting two files adds what one file with the lines of both would |
| `Cursors.Focus.Update` | src/trfx_connections.c:136-153 | the focus stays where it is or moves to the last visible row; 0 when nothing is visible |
| `Cursors.Focus.MoveFocus` | src/trfx_connections.c:172-185 | a step beyond an end goes to the other end |
| `Cursors.RunFocus` | src/trfx_threads.c:1244-1298 | the calls lead exactly to the fold of the events |
| `Cursors.FocusStaysInView` | src/trfx_connections.c:136-185 | any mix of updates and moves keeps the focus within the visible rows |
| `Cursors.StepsForward` | src/trfx_connections.c:172-185 | n single steps are a step of n modulo the size |
| `Cursors.StepsBack` | src/trfx_connections.c:172-185 | the same backwards |
| `Cursors.LongStep` | src/trfx_connections.c:178-182 | a longer step is modular exactly when its overshoot past the end is a whole number of rounds |
| `Cursors.StepWithinSize` | src/trfx_connections.c:178-182 | so a step of at most the size is modular exactly when it goes no further than one row past an end |
| `Cursors.NextIndex` | src/trfx_support_views.c:134-151 | the two loops end and compute the Euclidean remainder |
| `Cursors.ViewStepsAdd` | src/trfx_support_views.c:134-151 | steps add up and undo each other |
| `Cursors.SelectedIsTotal` | src/trfx_support_views.c:83-101 | after any run of cycling the selected view is the steps' total away |
| `Cursors.SupportViews.ConsumeRefreshRequest` | src/trfx_support_views.c:109-118 | true exactly when something asked for a refresh since the last time |

## Left out

- Rendering, popups, colours, key tables and help text: no invariant beyond the lifecycle's steps. Drawing that the main
  thread does without `ncurses_mutex` is not modelled; mutual exclusion is claimed for worker draws and locked drawing.
- How kernel tables, `/proc` files and directories are found and scanned into fields: taken as arbitrary inputs.
- Failures of `malloc`, `newwin` and `pthread_create` in the dashboard.
- Floating-point rounding: rates are reals.
- `atoi` on the two temperature settings: an uninterpreted function, as its overflow is undefined.
- The order in which `qsort` leaves equal elements: any order that is sorted is allowed.
- Actions.ActionLog.AuditAt: returns a copy of the entry instead of a pointer that is read after the unlock.
- Samples.SampleBuffer.Push: only the parts of a snapshot that bandwidth estimation reads are kept.
- BandwidthTrend.CollectTrend: leaves out the trend's source text and the error returns for null arguments.
- InterfaceTable.SortedInterfaces: an interface status is its name and whether it is up; its other columns move along.
- ConfigReader.RuntimeConfig.LoadRuntimeConfig: leaves out the error text and the warnings on the error stream.
- Cursors.NextIndex: indices are unbounded, so the overflow of adding an extreme step is not modelled.
- The text printers, the system and diagnostics printers, alerts, wifi, cpu, memory, disk and system collectors, layout
  geometry and the name tables of enumerations: they would add only easy members.
