/** The bandwidth report: interface totals divided over sockets or processes
    (`trfx_collect_bandwidth_report`). */
module BandwidthReport {
  import opened History
  import opened CStrings
  import opened Ordering
  import opened Samples
  import opened InterfaceRates
  import opened BandwidthTrend

  const MAX_FLOWS: nat := 64

  datatype Mode = Unsupported | InterfaceFallback | ProcessEstimated | SocketEstimated

  datatype Flow = Flow(
    title: string, pid: string, process: string, local: string, remote: string, proto: string, detail: string,
    rx: real, tx: real)

  datatype Report = Report(mode: Mode, source: string, rates: seq<InterfaceRate>, flows: seq<Flow>)

  function FlowRate(f: Flow, d: Direction): real {
    if d.Rx? then f.rx else f.tx
  }

  function SumFlows(flows: seq<Flow>, d: Direction): real {
    if flows == [] then 0.0 else FlowRate(flows[0], d) + SumFlows(flows[1..], d)
  }

  // ---------------------------------------------------------------- order of the flows

  function FlowTotal(f: Flow): real {
    f.rx + f.tx
  }

  /** `compare_bandwidth_flows`: larger totals first, then by label. */
  function CompareFlows(a: Flow, b: Flow): int {
    if FlowTotal(a) < FlowTotal(b) then 1
    else if FlowTotal(a) > FlowTotal(b) then -1
    else Strcmp(a.title, b.title)
  }

  lemma CompareFlowsIsPreorder()
    ensures TotalPreorder(CompareFlows)
  {
    forall x, y
      ensures CompareFlows(x, y) <= 0 || CompareFlows(y, x) <= 0
    {
      StrcmpFlips(x.title, y.title);
    }
    forall x, y, z | CompareFlows(x, y) <= 0 && CompareFlows(y, z) <= 0
      ensures CompareFlows(x, z) <= 0
    {
      if FlowTotal(x) == FlowTotal(z) {
        StrcmpTransitive(x.title, y.title, z.title);
      }
    }
  }

  /** Larger totals come first, and equal totals are ordered by label. */
  predicate Ranked(flows: seq<Flow>) {
    forall i, j :: 0 <= i < j < |flows| ==>
      FlowTotal(flows[i]) > FlowTotal(flows[j]) ||
      (FlowTotal(flows[i]) == FlowTotal(flows[j]) && Strcmp(flows[i].title, flows[j].title) <= 0)
  }

  method SortFlows(flows: seq<Flow>) returns (sorted: seq<Flow>)
    ensures Ranked(sorted) && multiset(sorted) == multiset(flows)
  {
    if |flows| <= 1 {
      return flows;
    }
    var a := new Flow[|flows|](i requires 0 <= i < |flows| => flows[i]);
    assert a[..] == flows;
    CompareFlowsIsPreorder();
    Sort(a, CompareFlows);
    sorted := a[..];
    forall i, j | 0 <= i < j < |sorted|
      ensures CompareFlows(sorted[i], sorted[j]) <= 0
    {
    }
  }

  lemma {:induction false} SumFlowsSplit(a: seq<Flow>, b: seq<Flow>, d: Direction)
    ensures SumFlows(a + b, d) == SumFlows(a, d) + SumFlows(b, d)
  {
    if a == [] {
      assert a + b == b;
    } else {
      assert (a + b)[1..] == a[1..] + b;
      SumFlowsSplit(a[1..], b, d);
    }
  }

  lemma SumFlowsWithout(flows: seq<Flow>, k: nat, d: Direction)
    requires k < |flows|
    ensures SumFlows(flows, d) == FlowRate(flows[k], d) + SumFlows(flows[..k] + flows[k + 1..], d)
  {
    SumFlowsSplit(flows[..k], flows[k..], d);
    SumFlowsSplit(flows[..k], flows[k + 1..], d);
    assert flows[..k] + flows[k..] == flows;
    assert flows[k..][1..] == flows[k + 1..];
  }

  /** Reordering flows does not change their sum. */
  lemma {:induction false} SumFlowsPermutation(a: seq<Flow>, b: seq<Flow>, d: Direction)
    requires multiset(a) == multiset(b)
    ensures SumFlows(a, d) == SumFlows(b, d)
    decreases |a|
  {
    if a == [] {
      assert |multiset(b)| == 0;
    } else {
      var k := FindInPermutation(a, b);
      SumFlowsPermutation(a[1..], b[..k] + b[k + 1..], d);
      SumFlowsWithout(b, k, d);
    }
  }

  // ---------------------------------------------------------------- socket mode

  predicate HasOwner(c: Connection) {
    c.pid != "-" || c.process != "-"
  }

  function Owned(connections: seq<Connection>): seq<Connection> {
    if connections == [] then []
    else
      var rest := Owned(connections[..|connections| - 1]);
      var last := connections[|connections| - 1];
      if HasOwner(last) then rest + [last] else rest
  }

  lemma {:induction false} OwnedAre(connections: seq<Connection>, c: Connection)
    ensures c in Owned(connections) <==> c in connections && HasOwner(c)
  {
    if connections != [] {
      var front, last := connections[..|connections| - 1], connections[|connections| - 1];
      assert connections == front + [last];
      OwnedAre(front, c);
    }
  }

  function SocketFlow(c: Connection, number: nat, owned: nat, rx: real, tx: real): Flow {
    Flow(Fit(c.protocol + " " + c.local + " -> " + c.remote, 128), c.pid, c.process, c.local, c.remote, c.protocol,
         "socket " + Decimal(number) + "/" + Decimal(owned), rx, tx)
  }

  /** One flow per owned connection, up to 64, each with the same share. */
  predicate AreSharedFlows(flows: seq<Flow>, owned: seq<Connection>, rxShare: real, txShare: real) {
    FlowsOf(flows, if |owned| < MAX_FLOWS then owned else owned[..MAX_FLOWS], |owned|, rxShare, txShare)
  }

  /** One flow per listed socket, numbered from 1. */
  predicate FlowsOf(flows: seq<Flow>, sockets: seq<Connection>, owned: nat, rxShare: real, txShare: real) {
    && |flows| == |sockets|
    && forall i :: 0 <= i < |flows| ==> flows[i] == SocketFlow(sockets[i], i + 1, owned, rxShare, txShare)
  }

  lemma MoreFlows(flows: seq<Flow>, sockets: seq<Connection>, c: Connection, owned: nat, rxShare: real, txShare: real)
    requires FlowsOf(flows, sockets, owned, rxShare, txShare)
    ensures FlowsOf(flows + [SocketFlow(c, |flows| + 1, owned, rxShare, txShare)], sockets + [c], owned, rxShare, txShare)
  {
  }

  /** The share is an equal part of the totals. */
  predicate AreSocketFlows(flows: seq<Flow>, owned: seq<Connection>, rx: real, tx: real)
    requires owned != []
  {
    AreSharedFlows(flows, owned, rx / |owned| as real, tx / |owned| as real)
  }

  method CountOwned(connections: seq<Connection>) returns (n: nat)
    ensures n == |Owned(connections)|
  {
    n := 0;
    for i := 0 to |connections|
      invariant n == |Owned(connections[..i])|
    {
      assert connections[..i + 1][..i] == connections[..i];
      if HasOwner(connections[i]) {
        n := n + 1;
      }
    }
    assert connections[..|connections|] == connections;
  }

  lemma {:induction false} OwnedPrefix(connections: seq<Connection>, i: nat)
    requires i <= |connections|
    ensures Owned(connections[..i]) <= Owned(connections)
    decreases |connections|
  {
    if i < |connections| {
      assert connections[..|connections| - 1][..i] == connections[..i];
      OwnedPrefix(connections[..|connections| - 1], i);
    } else {
      assert connections[..i] == connections;
    }
  }

  lemma MoreOwned(connections: seq<Connection>, i: nat)
    requires i < |connections|
    ensures Owned(connections[..i + 1]) ==
            Owned(connections[..i]) + if HasOwner(connections[i]) then [connections[i]] else []
  {
    assert connections[..i + 1][..i] == connections[..i];
  }

  method BuildSocketFlows(connections: seq<Connection>, owned: nat, rx: real, tx: real) returns (flows: seq<Flow>)
    requires owned == |Owned(connections)| > 0
    ensures AreSocketFlows(flows, Owned(connections), rx, tx)
  {
    flows := BuildSharedFlows(connections, owned, rx / owned as real, tx / owned as real);
  }

  method BuildSharedFlows(connections: seq<Connection>, owned: nat, rxShare: real, txShare: real) returns (flows: seq<Flow>)
    requires owned == |Owned(connections)|
    ensures AreSharedFlows(flows, Owned(connections), rxShare, txShare)
  {
    flows := [];
    var i := 0;
    while i < |connections| && |flows| < MAX_FLOWS
      invariant 0 <= i <= |connections| && |flows| <= MAX_FLOWS
      invariant FlowsOf(flows, Owned(connections[..i]), owned, rxShare, txShare)
    {
      MoreOwned(connections, i);
      MoreFlows(flows, Owned(connections[..i]), connections[i], owned, rxShare, txShare);
      if HasOwner(connections[i]) {
        flows := flows + [SocketFlow(connections[i], |flows| + 1, owned, rxShare, txShare)];
      }
      i := i + 1;
    }
    PrefixFlows(flows, connections, i, rxShare, txShare);
  }

  /** The flows of the connections looked at so far are all flows, once there are enough of them. */
  lemma PrefixFlows(flows: seq<Flow>, connections: seq<Connection>, i: nat, rxShare: real, txShare: real)
    requires i <= |connections| && |flows| <= MAX_FLOWS && (i == |connections| || |flows| == MAX_FLOWS)
    requires FlowsOf(flows, Owned(connections[..i]), |Owned(connections)|, rxShare, txShare)
    ensures AreSharedFlows(flows, Owned(connections), rxShare, txShare)
  {
    OwnedPrefix(connections, i);
    if i == |connections| {
      assert connections[..i] == connections;
    }
  }

  // ---------------------------------------------------------------- process mode

  datatype Key = Key(pid: string, process: string)
  datatype Group = Group(key: Key, count: nat)

  function KeyOf(o: SocketOwner): Key {
    Key(o.pid, o.process)
  }

  /** How many sockets a process has. */
  function CountKey(owners: seq<SocketOwner>, key: Key): nat {
    if owners == [] then 0
    else CountKey(owners[..|owners| - 1], key) + (if KeyOf(owners[|owners| - 1]) == key then 1 else 0)
  }

  /** The different processes in order of their first socket. */
  function Keys(owners: seq<SocketOwner>): seq<Key> {
    if owners == [] then []
    else
      var rest, key := Keys(owners[..|owners| - 1]), KeyOf(owners[|owners| - 1]);
      if key in rest then rest else rest + [key]
  }

  function FirstKeys(owners: seq<SocketOwner>): (r: seq<Key>)
    ensures |r| <= MAX_FLOWS
  {
    if |Keys(owners)| <= MAX_FLOWS then Keys(owners) else Keys(owners)[..MAX_FLOWS]
  }

  function SumCounts(groups: seq<Group>): nat {
    if groups == [] then 0 else groups[0].count + SumCounts(groups[1..])
  }

  /** One group per process, for the first 64 processes, with that process's exact number of sockets. */
  predicate AreGroups(groups: seq<Group>, owners: seq<SocketOwner>) {
    && |groups| == |FirstKeys(owners)|
    && forall i :: 0 <= i < |groups| ==>
         groups[i].key == FirstKeys(owners)[i] && groups[i].count == CountKey(owners, groups[i].key)
  }

  lemma {:induction false} KeysAreDistinct(owners: seq<SocketOwner>)
    ensures forall i, j :: 0 <= i < j < |Keys(owners)| ==> Keys(owners)[i] != Keys(owners)[j]
    ensures forall k :: k in Keys(owners) <==> CountKey(owners, k) > 0
  {
    if owners != [] {
      KeysAreDistinct(owners[..|owners| - 1]);
    }
  }

  method FindProcessGroup(groups: seq<Group>, owner: SocketOwner) returns (index: int)
    ensures -1 <= index < |groups|
    ensures index >= 0 ==> groups[index].key == KeyOf(owner)
    ensures index == -1 ==> forall i :: 0 <= i < |groups| ==> groups[i].key != KeyOf(owner)
  {
    for i := 0 to |groups|
      invariant forall k :: 0 <= k < i ==> groups[k].key != KeyOf(owner)
    {
      if groups[i].key.pid == owner.pid && groups[i].key.process == owner.process {
        return i;
      }
    }
    return -1;
  }

  lemma {:induction false} SumCountsBump(groups: seq<Group>, i: nat)
    requires i < |groups|
    ensures SumCounts(groups[i := groups[i].(count := groups[i].count + 1)]) == SumCounts(groups) + 1
  {
    var g := groups[i].(count := groups[i].count + 1);
    if i == 0 {
      assert groups[0 := g][1..] == groups[1..];
    } else {
      assert groups[i := g][1..] == groups[1..][i - 1 := g];
      SumCountsBump(groups[1..], i - 1);
    }
  }

  lemma {:induction false} SumCountsAppend(groups: seq<Group>, g: Group)
    ensures SumCounts(groups + [g]) == SumCounts(groups) + g.count
  {
    if groups != [] {
      assert (groups + [g])[1..] == groups[1..] + [g];
      SumCountsAppend(groups[1..], g);
    }
  }

  /** The groups after one more socket owner. */
  function OneMore(groups: seq<Group>, owner: SocketOwner, index: int): seq<Group>
    requires -1 <= index < |groups|
  {
    if index != -1 then groups[index := groups[index].(count := groups[index].count + 1)]
    else if |groups| < MAX_FLOWS then groups + [Group(KeyOf(owner), 1)]
    else groups
  }

  lemma OneMoreOwner(groups: seq<Group>, owners: seq<SocketOwner>, owner: SocketOwner, index: int)
    requires AreGroups(groups, owners) && -1 <= index < |groups|
    requires index >= 0 ==> groups[index].key == KeyOf(owner)
    requires index == -1 ==> forall i :: 0 <= i < |groups| ==> groups[i].key != KeyOf(owner)
    ensures AreGroups(OneMore(groups, owner, index), owners + [owner])
  {
    KeysAreDistinct(owners);
    assert (owners + [owner])[..|owners|] == owners;
    var key := KeyOf(owner);
    if index >= 0 {
      assert FirstKeys(owners)[index] == key && key in Keys(owners);
    } else if |groups| < MAX_FLOWS {
      assert FirstKeys(owners) == Keys(owners);
      assert key !in Keys(owners);
    }
  }

  /** One more owner is counted for its group, which is added while there is room. */
  method CountOwner(before: seq<Group>, count: nat, owner: SocketOwner, ghost seen: seq<SocketOwner>)
    returns (groups: seq<Group>, total: nat)
    requires AreGroups(before, seen) && count == SumCounts(before)
    requires before == [] || count > 0
    ensures AreGroups(groups, seen + [owner]) && total == SumCounts(groups)
    ensures groups != [] && total > 0
  {
    groups, total := before, count;
    var index := FindProcessGroup(groups, owner);
    OneMoreOwner(groups, seen, owner, index);
    if index == -1 && |groups| < MAX_FLOWS {
      index := |groups|;
      groups := groups + [Group(Key(owner.pid, owner.process), 0)];
      SumCountsAppend(before, groups[index]);
    }
    if index != -1 {
      SumCountsBump(groups, index);
      groups := groups[index := groups[index].(count := groups[index].count + 1)];
      total := total + 1;
    }
  }

  method GroupOwners(owners: seq<SocketOwner>) returns (groups: seq<Group>, total: nat)
    ensures AreGroups(groups, owners) && total == SumCounts(groups)
    ensures owners != [] ==> groups != [] && total > 0
  {
    groups, total := [], 0;
    for i := 0 to |owners|
      invariant AreGroups(groups, owners[..i]) && total == SumCounts(groups)
      invariant i > 0 ==> groups != [] && total > 0
    {
      assert owners[..i + 1] == owners[..i] + [owners[i]];
      groups, total := CountOwner(groups, total, owners[i], owners[..i]);
    }
    assert owners[..|owners|] == owners;
  }

  /** A process's part of a total: its sockets out of all grouped sockets. */
  function Share(total: real, count: int, all: int): real
    requires all > 0
  {
    total * (count as real / all as real)
  }

  function GroupFlow(g: Group, rx: real, tx: real, all: nat): Flow
    requires all > 0
  {
    Flow(g.key.process, g.key.pid, g.key.process, "", "", "", Decimal(g.count) + " sockets",
         Share(rx, g.count, all), Share(tx, g.count, all))
  }

  predicate AreGroupFlows(flows: seq<Flow>, groups: seq<Group>, rx: real, tx: real)
    requires SumCounts(groups) > 0
  {
    |flows| == |groups| &&
    forall i :: 0 <= i < |flows| ==> flows[i] == GroupFlow(groups[i], rx, tx, SumCounts(groups))
  }

  method BuildGroupFlows(groups: seq<Group>, all: nat, rx: real, tx: real) returns (flows: seq<Flow>)
    requires all == SumCounts(groups) > 0
    ensures AreGroupFlows(flows, groups, rx, tx)
  {
    flows := [];
    for i := 0 to |groups|
      invariant |flows| == i
      invariant forall k :: 0 <= k < i ==> flows[k] == GroupFlow(groups[k], rx, tx, all)
    {
      flows := flows + [GroupFlow(groups[i], rx, tx, all)];
    }
  }

  // ---------------------------------------------------------------- the report

  /** A report that divides the totals over the owned connections. */
  ghost predicate IsSocketReport(report: Report, rates: seq<InterfaceRate>, connections: seq<Connection>)
    requires Owned(connections) != []
  {
    && report.mode == SocketEstimated
    && report.source == "estimated from interface deltas and socket ownership"
    && report.rates == rates && Ranked(report.flows)
    && exists flows :: AreSocketFlows(flows, Owned(connections), Total(rates, Rx), Total(rates, Tx))
                       && multiset(report.flows) == multiset(flows)
  }

  /** A report that divides the totals over the processes that own sockets. */
  ghost predicate IsProcessReport(report: Report, rates: seq<InterfaceRate>, owners: seq<SocketOwner>) {
    && report.mode == ProcessEstimated
    && report.source == "estimated from interface deltas and socket ownership"
    && report.rates == rates && Ranked(report.flows)
    && exists groups, flows :: AreGroups(groups, owners) && SumCounts(groups) > 0
                               && AreGroupFlows(flows, groups, Total(rates, Rx), Total(rates, Tx))
                               && multiset(report.flows) == multiset(flows)
  }

  /** What the report says about the newest two samples. */
  ghost predicate IsReportOf(report: Report, samples: seq<Sample>) {
    if |samples| < 2 then
      report == Report(Unsupported, "need at least two samples for bandwidth estimates", [], [])
    else IsReportBetween(report, samples[|samples| - 2], samples[|samples| - 1])
  }

  ghost predicate IsReportBetween(report: Report, previous: Sample, current: Sample) {
    var rates := RatesBetween(previous, current);
    if Owned(current.snapshot.connections) != [] then IsSocketReport(report, rates, current.snapshot.connections)
    else if current.snapshot.owners != [] then IsProcessReport(report, rates, current.snapshot.owners)
    else report == Report(InterfaceFallback, "interface-level fallback only", rates, [])
  }

  method SocketReport(rates: seq<InterfaceRate>, connections: seq<Connection>, owned: nat, rx: real, tx: real)
    returns (report: Report)
    requires owned == |Owned(connections)| > 0 && rx == Total(rates, Rx) && tx == Total(rates, Tx)
    ensures IsSocketReport(report, rates, connections)
  {
    var flows := BuildSocketFlows(connections, owned, rx, tx);
    var sorted := SortFlows(flows);
    report := Report(SocketEstimated, "estimated from interface deltas and socket ownership", rates, sorted);
  }

  method ProcessReport(rates: seq<InterfaceRate>, owners: seq<SocketOwner>, rx: real, tx: real) returns (report: Report)
    requires owners != [] && rx == Total(rates, Rx) && tx == Total(rates, Tx)
    ensures IsProcessReport(report, rates, owners)
  {
    var groups, all := GroupOwners(owners);
    var flows := BuildGroupFlows(groups, all, rx, tx);
    var sorted := SortFlows(flows);
    report := Report(ProcessEstimated, "estimated from interface deltas and socket ownership", rates, sorted);
  }

  method CollectReport(buffer: SampleBuffer) returns (report: Report)
    requires buffer.Valid()
    ensures IsReportOf(report, LastN(buffer.pushed, SAMPLE_HISTORY))
  {
    var count := buffer.Count();
    if count < 2 {
      return Report(Unsupported, "need at least two samples for bandwidth estimates", [], []);
    }
    var previous := buffer.At(count - 2);
    var current := buffer.At(count - 1);
    // The branch for a missing sample is never taken.
    assert previous.Some? && current.Some?;
    assert FitsArrays(current.value.snapshot);
    report := ReportBetween(previous.value, current.value);
  }

  /** The report for two samples. */
  method ReportBetween(previous: Sample, current: Sample) returns (report: Report)
    requires FitsArrays(current.snapshot)
    ensures IsReportBetween(report, previous, current)
  {
    var elapsed := (current.capturedAt - previous.capturedAt) as real;
    if elapsed <= 0.0 {
      elapsed := 1.0;
    }
    var rates := CalculateInterfaceRates(
      previous.snapshot.interfaces, current.snapshot.interfaces, elapsed, MAX_INTERFACES);
    var rx := SumRates(rates.value, Rx);
    var tx := SumRates(rates.value, Tx);
    var owned := CountOwned(current.snapshot.connections);
    if owned > 0 {
      report := SocketReport(rates.value, current.snapshot.connections, owned, rx, tx);
    } else if |current.snapshot.owners| > 0 {
      report := ProcessReport(rates.value, current.snapshot.owners, rx, tx);
    } else {
      report := Report(InterfaceFallback, "interface-level fallback only", rates.value, []);
    }
  }

  // ---------------------------------------------------------------- conservation

  lemma AddShares(total: real, a: int, b: int, all: int)
    requires all > 0
    ensures Share(total, a, all) + Share(total, b, all) == Share(total, a + b, all)
  {
    assert a as real / all as real + b as real / all as real == (a + b) as real / all as real;
  }

  lemma WholeShare(total: real, all: int)
    requires all > 0
    ensures Share(total, all, all) == total && Share(total, 0, all) == 0.0
  {
  }

  lemma {:induction false} GroupFlowsSum(flows: seq<Flow>, groups: seq<Group>, rx: real, tx: real, all: nat, d: Direction)
    requires all > 0 && |flows| == |groups|
    requires forall i :: 0 <= i < |flows| ==> flows[i] == GroupFlow(groups[i], rx, tx, all)
    ensures SumFlows(flows, d) == Share(if d.Rx? then rx else tx, SumCounts(groups), all)
  {
    var total := if d.Rx? then rx else tx;
    if flows == [] {
      WholeShare(total, all);
    } else {
      GroupFlowsSum(flows[1..], groups[1..], rx, tx, all, d);
      AddShares(total, groups[0].count, SumCounts(groups[1..]), all);
    }
  }

  /** Process mode conserves traffic: the flows sum exactly to the interface totals, however many
      processes were left out. */
  lemma ProcessModeConserves(report: Report, samples: seq<Sample>, d: Direction)
    requires IsReportOf(report, samples) && report.mode == ProcessEstimated
    ensures SumFlows(report.flows, d) == Total(report.rates, d)
  {
    var current := samples[|samples| - 1];
    var rx, tx := Total(report.rates, Rx), Total(report.rates, Tx);
    var groups, flows :| AreGroups(groups, current.snapshot.owners) && SumCounts(groups) > 0
                         && AreGroupFlows(flows, groups, rx, tx) && multiset(report.flows) == multiset(flows);
    SumFlowsPermutation(report.flows, flows, d);
    GroupFlowsSum(flows, groups, rx, tx, SumCounts(groups), d);
    WholeShare(Total(report.rates, d), SumCounts(groups));
  }

  lemma {:induction false} SocketFlowsSum(flows: seq<Flow>, d: Direction, share: real)
    requires forall i :: 0 <= i < |flows| ==> FlowRate(flows[i], d) == share
    ensures SumFlows(flows, d) == Over(share, |flows|)
  {
    if flows != [] {
      SocketFlowsSum(flows[1..], d, share);
    }
  }

  lemma PartOfWhole(total: real, part: nat, all: nat)
    requires all > 0
    ensures Over(Over(total / all as real, part), all) == Over(total, part)
  {
    var share := total / all as real;
    assert share * all as real == total;
    OverIsProduct(share, part);
    OverIsProduct(share * part as real, all);
    OverIsProduct(total, part);
    assert share * part as real * all as real == share * all as real * part as real;
  }

  /** A rate multiplied by a count. */
  function Product(x: real, n: nat): real {
    x * n as real
  }

  lemma SharesTimesWhole(total: real, sum: real, part: nat, all: nat)
    requires all > 0 && sum == Over(total / all as real, part)
    ensures Product(sum, all) == Product(total, part)
  {
    PartOfWhole(total, part, all);
    OverIsProduct(sum, all);
    OverIsProduct(total, part);
  }

  lemma SocketModeSum(report: Report, samples: seq<Sample>, d: Direction)
    requires IsReportOf(report, samples) && report.mode == SocketEstimated
    ensures var owned := |Owned(samples[|samples| - 1].snapshot.connections)|;
            && owned > 0
            && |report.flows| == (if owned < MAX_FLOWS then owned else MAX_FLOWS)
            && SumFlows(report.flows, d) == Over(Total(report.rates, d) / owned as real, |report.flows|)
  {
    var owned := Owned(samples[|samples| - 1].snapshot.connections);
    var rx, tx := Total(report.rates, Rx), Total(report.rates, Tx);
    var flows :| AreSocketFlows(flows, owned, rx, tx) && multiset(report.flows) == multiset(flows);
    assert |report.flows| == |multiset(report.flows)| == |flows|;
    SumFlowsPermutation(report.flows, flows, d);
    SocketFlowsSum(flows, d, Total(report.rates, d) / |owned| as real);
  }

  /** Socket mode carries the part of the totals that its at most 64 listed sockets stand for: the sum
      of the flows times the owned sockets is the total times the listed ones. */
  lemma SocketModeCarries(report: Report, samples: seq<Sample>, d: Direction)
    requires IsReportOf(report, samples) && report.mode == SocketEstimated
    ensures var owned := |Owned(samples[|samples| - 1].snapshot.connections)|;
            && |report.flows| == (if owned < MAX_FLOWS then owned else MAX_FLOWS)
            && Product(SumFlows(report.flows, d), owned) == Product(Total(report.rates, d), |report.flows|)
  {
    var owned := |Owned(samples[|samples| - 1].snapshot.connections)|;
    SocketModeSum(report, samples, d);
    SharesTimesWhole(Total(report.rates, d), SumFlows(report.flows, d), |report.flows|, owned);
  }

  /** Process groups have different keys and exact socket counts, and none of the first 64 is missing. */
  lemma GroupsAreExact(groups: seq<Group>, owners: seq<SocketOwner>)
    requires AreGroups(groups, owners)
    ensures forall i, j :: 0 <= i < j < |groups| ==> groups[i].key != groups[j].key
    ensures forall i :: 0 <= i < |groups| ==> groups[i].count == CountKey(owners, groups[i].key) > 0
    ensures |Keys(owners)| <= MAX_FLOWS ==>
              forall o :: o in owners ==> exists i :: 0 <= i < |groups| && groups[i].key == KeyOf(o)
  {
    KeysAreDistinct(owners);
    forall o | |Keys(owners)| <= MAX_FLOWS && o in owners
      ensures exists i :: 0 <= i < |groups| && groups[i].key == KeyOf(o)
    {
      EveryOwnerHasKey(owners, o);
      var i :| 0 <= i < |Keys(owners)| && Keys(owners)[i] == KeyOf(o);
      assert groups[i].key == KeyOf(o);
    }
  }

  lemma {:induction false} EveryOwnerHasKey(owners: seq<SocketOwner>, o: SocketOwner)
    requires o in owners
    ensures KeyOf(o) in Keys(owners)
  {
    if o != owners[|owners| - 1] {
      assert owners == owners[..|owners| - 1] + [owners[|owners| - 1]];
      EveryOwnerHasKey(owners[..|owners| - 1], o);
    }
  }

  lemma ReportRates(report: Report, previous: Sample, current: Sample)
    requires IsReportBetween(report, previous, current)
    ensures report.rates == RatesBetween(previous, current)
  {
  }

  lemma NewestPoint(points: seq<TrendPoint>, samples: seq<Sample>)
    requires |samples| >= 2 && IsTrendOf(points, Window(samples))
    ensures points != []
    ensures points[|points| - 1] == PointBetween(samples[|samples| - 2], samples[|samples| - 1])
  {
    var window, n := Window(samples), |points| - 1;
    assert window[n] == samples[|samples| - 2] && window[n + 1] == samples[|samples| - 1];
    assert points[n] == PointBetween(window[n], window[n + 1]);
  }

  lemma PointIsTotal(previous: Sample, current: Sample, d: Direction)
    ensures PointRate(PointBetween(previous, current), d) == Total(RatesBetween(previous, current), d)
    ensures PointBetween(previous, current).capturedAt == current.capturedAt
  {
  }

  /** The newest trend point of a buffer is the sum of the report's interface rates for that buffer. */
  lemma NewestPointIsReportTotal(points: seq<TrendPoint>, report: Report, samples: seq<Sample>, d: Direction)
    requires |samples| >= 2 && IsTrendOf(points, Window(samples)) && IsReportOf(report, samples)
    ensures points != [] && PointRate(points[|points| - 1], d) == Total(report.rates, d)
    ensures points[|points| - 1].capturedAt == samples[|samples| - 1].capturedAt
  {
    var previous, current := samples[|samples| - 2], samples[|samples| - 1];
    ReportRates(report, previous, current);
    NewestPoint(points, samples);
    PointIsTotal(previous, current, d);
  }
}
