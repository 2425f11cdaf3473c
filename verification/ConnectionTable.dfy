/** Collecting the connection list: four kernel tables, socket owners and the order of states
    (`trfx_connections`, `trfx_socket_owners`). */
module ConnectionTable {
  import opened CStrings
  import opened EndpointCodec
  import opened History
  import opened Ordering
  import opened Samples

  /** What scanning a line of a kernel table gives. */
  datatype RawLine = Malformed | Row(localHex: string, remoteHex: string, state: int, uid: nat, inode: nat)

  /** `inet_ntop` for IPv6 and the user names. */
  datatype Lookups = Lookups(ntop: seq<nat> -> string, userOf: nat -> Option<string>)

  datatype OwnerEntry = OwnerEntry(inode: nat, pid: string, process: string)

  // ---------------------------------------------------------------- states

  function TcpStateName(state: int): string {
    if state == 1 then "ESTABLISHED"
    else if state == 2 then "SYN_SENT"
    else if state == 3 then "SYN_RECV"
    else if state == 4 then "FIN_WAIT1"
    else if state == 5 then "FIN_WAIT2"
    else if state == 6 then "TIME_WAIT"
    else if state == 7 then "CLOSE"
    else if state == 8 then "CLOSE_WAIT"
    else if state == 9 then "LAST_ACK"
    else if state == 10 then "LISTEN"
    else if state == 11 then "CLOSING"
    else if state == 12 then "NEW_SYN_RECV"
    else "UNKNOWN"
  }

  function UdpStateName(state: int): string {
    if state == 1 then "ESTABLISHED" else if state == 7 then "UNCONN" else "UNKNOWN"
  }

  datatype Protocol = Tcp | Udp

  function ProtocolName(p: Protocol): string {
    if p.Tcp? then "TCP" else "UDP"
  }

  function StateName(p: Protocol, state: int): (name: string)
    ensures |name| < 32
  {
    if p.Udp? then UdpStateName(state) else TcpStateName(state)
  }

  /** Closing and closed TCP connections are left out; UDP's 7 is kept. */
  predicate Skipped(p: Protocol, state: int) {
    p.Tcp? && (state == 6 || state == 7 || state == 8 || state == 9 || state == 11)
  }

  function StatePriority(state: string): int {
    if state == "ESTABLISHED" then 0 else if state == "LISTEN" then 1 else if state == "TIME_WAIT" then 2 else 100
  }

  function CompareConnections(a: Connection, b: Connection): int {
    StatePriority(a.state) - StatePriority(b.state)
  }

  lemma CompareIsPreorder()
    ensures TotalPreorder(CompareConnections)
  {
  }

  // ---------------------------------------------------------------- rows

  ghost predicate IsAccepted(p: Protocol, line: RawLine) {
    line.Row? && !Skipped(p, line.state)
  }

  ghost predicate FieldsAreHex(lines: seq<RawLine>) {
    forall i :: 0 <= i < |lines| && lines[i].Row? ==> IsHexField(lines[i].localHex) && IsHexField(lines[i].remoteHex)
  }

  function UserName(uid: nat, userOf: nat -> Option<string>): string {
    Fit(if userOf(uid).Some? then userOf(uid).value else "-", 64)
  }

  ghost function RowOf(p: Protocol, line: RawLine, k: Lookups): Connection
    requires line.Row?
  {
    Connection(ProtocolName(p), EndpointText(line.localHex, k.ntop), EndpointText(line.remoteHex, k.ntop),
               StateName(p, line.state), line.inode, line.uid, UserName(line.uid, k.userOf), "-", "-")
  }

  /** The accepted rows of the lines of a table, in order. */
  ghost function Rows(p: Protocol, lines: seq<RawLine>, k: Lookups): seq<Connection> {
    if lines == [] then []
    else
      var front := Rows(p, lines[..|lines| - 1], k);
      var line := lines[|lines| - 1];
      if IsAccepted(p, line) then front + [RowOf(p, line, k)] else front
  }

  function Capped<T>(s: seq<T>, max: nat): seq<T> {
    if |s| <= max then s else s[..max]
  }

  lemma CappedAppends<T>(s: seq<T>, t: seq<T>, max: nat)
    ensures Capped(Capped(s, max) + t, max) == Capped(s + t, max)
  {
  }

  /** A table's rows: its first line is a header. A table that cannot be opened has none. */
  ghost function TableRows(p: Protocol, table: Option<seq<RawLine>>, k: Lookups): seq<Connection> {
    if table.None? || table.value == [] then [] else Rows(p, table.value[1..], k)
  }

  lemma {:induction false} RowsOfMore(p: Protocol, lines: seq<RawLine>, n: nat, k: Lookups)
    requires n <= |lines|
    ensures Rows(p, lines[..n], k) <= Rows(p, lines, k)
    decreases |lines|
  {
    if n < |lines| {
      assert lines[..|lines| - 1][..n] == lines[..n];
      RowsOfMore(p, lines[..|lines| - 1], n, k);
    } else {
      assert lines[..n] == lines;
    }
  }

  /** Fills one slot of the list. */
  method FillRow(p: Protocol, line: RawLine, k: Lookups) returns (c: Connection)
    requires line.Row? && IsHexField(line.localHex) && IsHexField(line.remoteHex) && PrintsV6(k.ntop)
    ensures c == RowOf(p, line, k)
  {
    var local := ParseIpPort(line.localHex, k.ntop);
    var remote := ParseIpPort(line.remoteHex, k.ntop);
    c := Connection(Fit(ProtocolName(p), 8), Fit(local, 64), Fit(remote, 64), Fit(StateName(p, line.state), 32),
                    line.inode, line.uid, UserName(line.uid, k.userOf), Fit("-", 16), Fit("-", 64));
  }

  /** One line of a table: an accepted row is appended. */
  method TakeLine(p: Protocol, line: RawLine, list: array<Connection>, count: nat, k: Lookups) returns (n: nat)
    requires count < list.Length && PrintsV6(k.ntop)
    requires line.Row? ==> IsHexField(line.localHex) && IsHexField(line.remoteHex)
    modifies list
    ensures n <= list.Length
    ensures list[..n] == old(list[..count]) + if IsAccepted(p, line) then [RowOf(p, line, k)] else []
  {
    n := count;
    ghost var before := list[..count];
    if line.Malformed? {
      return;
    }
    if Skipped(p, line.state) {
      return;
    }
    var c := FillRow(p, line, k);
    list[n] := c;
    assert list[..n + 1] == before + [c];
    n := n + 1;
  }

  lemma RowsMore(p: Protocol, lines: seq<RawLine>, i: nat, k: Lookups, head: seq<Connection>)
    requires i < |lines|
    ensures head + Rows(p, lines[..i], k) + (if IsAccepted(p, lines[i]) then [RowOf(p, lines[i], k)] else []) ==
            head + Rows(p, lines[..i + 1], k)
  {
    assert lines[..i + 1][..i] == lines[..i];
  }

  /** The next line of a table, whose rows so far stand behind `head`. */
  method TakeNext(p: Protocol, line: RawLine, list: array<Connection>, count: nat, k: Lookups,
                  ghost lines: seq<RawLine>, ghost i: nat, ghost head: seq<Connection>) returns (n: nat)
    requires count < list.Length && PrintsV6(k.ntop) && i < |lines| && lines[i] == line
    requires line.Row? ==> IsHexField(line.localHex) && IsHexField(line.remoteHex)
    requires list[..count] == head + Rows(p, lines[..i], k)
    modifies list
    ensures n <= list.Length && list[..n] == head + Rows(p, lines[..i + 1], k)
  {
    RowsMore(p, lines, i, k, head);
    n := TakeLine(p, line, list, count, k);
  }

  lemma CappedIs(head: seq<Connection>, done: seq<Connection>, all: seq<Connection>, max: nat)
    requires done <= all && |head + done| <= max && (|head + done| == max || done == all)
    ensures head + done == Capped(head + all, max)
  {
    assert head + done <= head + all;
  }

  lemma CappedRows(p: Protocol, lines: seq<RawLine>, i: nat, k: Lookups, head: seq<Connection>, max: nat)
    requires i <= |lines| && |head + Rows(p, lines[..i], k)| <= max
    requires i == |lines| || |head + Rows(p, lines[..i], k)| == max
    ensures head + Rows(p, lines[..i], k) == Capped(head + Rows(p, lines, k), max)
  {
    RowsOfMore(p, lines, i, k);
    assert i == |lines| ==> lines[..i] == lines;
    CappedIs(head, Rows(p, lines[..i], k), Rows(p, lines, k), max);
  }

  /** `trfx_parse_connection_path`: appends the accepted rows of a table as long as there is room. */
  method ParseConnectionTable(table: Option<seq<RawLine>>, p: Protocol, list: array<Connection>, count: nat, k: Lookups)
    returns (n: nat)
    requires count <= list.Length && PrintsV6(k.ntop)
    requires table.Some? ==> FieldsAreHex(table.value)
    modifies list
    ensures n <= list.Length
    ensures list[..n] == Capped(old(list[..count]) + TableRows(p, table, k), list.Length)
  {
    n := count;
    ghost var head := list[..count];
    if table.None? || list.Length == 0 || |table.value| == 0 {
      assert TableRows(p, table, k) == [] || list.Length == 0;
      return;
    }
    ghost var lines := table.value[1..];
    var i := 0;
    while i + 1 < |table.value| && n < list.Length
      invariant i <= |lines| && n <= list.Length
      invariant list[..n] == head + Rows(p, lines[..i], k)
    {
      assert lines[i] == table.value[i + 1];
      n := TakeNext(p, table.value[i + 1], list, n, k, lines, i, head);
      i := i + 1;
    }
    CappedRows(p, lines, i, k, head, list.Length);
  }

  // ---------------------------------------------------------------- owners

  /** The first map entry with an inode, starting at entry `from`. */
  function FirstEntry(owners: seq<OwnerEntry>, inode: nat, from: nat): (r: Option<OwnerEntry>)
    requires from <= |owners|
    ensures r.Some? ==> exists i :: from <= i < |owners| && owners[i] == r.value && owners[i].inode == inode
                                    && forall j :: from <= j < i ==> owners[j].inode != inode
    ensures r.None? ==> forall j :: from <= j < |owners| ==> owners[j].inode != inode
    decreases |owners| - from
  {
    if from == |owners| then None
    else if owners[from].inode == inode then Some(owners[from])
    else FirstEntry(owners, inode, from + 1)
  }

  /** `trfx_find_socket_owner_by_inode`, applied to a row. */
  method FindSocketOwner(owners: seq<OwnerEntry>, inode: nat) returns (pid: string, process: string)
    ensures (pid, process) == OwnerNames(owners, inode)
  {
    pid, process := Fit("-", 16), Fit("-", 64);
    if |owners| == 0 || inode == 0 {
      return;
    }
    for i := 0 to |owners|
      invariant FirstEntry(owners, inode, i) == FirstEntry(owners, inode, 0)
    {
      if owners[i].inode == inode {
        return Fit(owners[i].pid, 16), Fit(owners[i].process, 64);
      }
    }
  }

  /** A socket without an inode has no owner; any other has the first map entry's, if there is one. */
  function OwnerNames(owners: seq<OwnerEntry>, inode: nat): (string, string) {
    if inode == 0 then ("-", "-")
    else
      match FirstEntry(owners, inode, 0)
      case None => ("-", "-")
      case Some(e) => (Fit(e.pid, 16), Fit(e.process, 64))
  }

  function WithOwner(c: Connection, owners: seq<OwnerEntry>): Connection {
    c.(pid := OwnerNames(owners, c.inode).0, process := OwnerNames(owners, c.inode).1)
  }

  function WithOwners(s: seq<Connection>, owners: seq<OwnerEntry>): (r: seq<Connection>)
    ensures |r| == |s|
    ensures forall i :: 0 <= i < |s| ==> r[i] == WithOwner(s[i], owners)
  {
    seq(|s|, i requires 0 <= i < |s| => WithOwner(s[i], owners))
  }

  method ApplySocketOwnerMap(list: array<Connection>, count: nat, owners: seq<OwnerEntry>)
    requires count <= list.Length
    modifies list
    ensures list[..count] == WithOwners(old(list[..count]), owners)
  {
    ghost var was := list[..count];
    for i := 0 to count
      invariant forall j :: 0 <= j < i ==> list[j] == WithOwner(was[j], owners)
      invariant forall j :: i <= j < count ==> list[j] == was[j]
    {
      var pid, process := FindSocketOwner(owners, list[i].inode);
      list[i] := list[i].(pid := pid, process := process);
    }
  }

  // ---------------------------------------------------------------- the list

  /** The four kernel tables; one that cannot be opened is missing. */
  datatype Tables = Tables(
    tcp: Option<seq<RawLine>>, udp: Option<seq<RawLine>>, tcp6: Option<seq<RawLine>>, udp6: Option<seq<RawLine>>)

  ghost predicate TablesAreHex(t: Tables) {
    && (t.tcp.Some? ==> FieldsAreHex(t.tcp.value)) && (t.udp.Some? ==> FieldsAreHex(t.udp.value))
    && (t.tcp6.Some? ==> FieldsAreHex(t.tcp6.value)) && (t.udp6.Some? ==> FieldsAreHex(t.udp6.value))
  }

  ghost function AllRows(t: Tables, k: Lookups): seq<Connection> {
    TableRows(Tcp, t.tcp, k) + TableRows(Udp, t.udp, k) + TableRows(Tcp, t.tcp6, k) + TableRows(Udp, t.udp6, k)
  }

  /** One more table behind the rows read so far. */
  method AppendTable(table: Option<seq<RawLine>>, p: Protocol, list: array<Connection>, count: nat, k: Lookups,
                     ghost before: seq<Connection>) returns (n: nat)
    requires count <= list.Length && list[..count] == Capped(before, list.Length) && PrintsV6(k.ntop)
    requires table.Some? ==> FieldsAreHex(table.value)
    modifies list
    ensures n <= list.Length && list[..n] == Capped(before + TableRows(p, table, k), list.Length)
  {
    CappedAppends(before, TableRows(p, table, k), list.Length);
    n := ParseConnectionTable(table, p, list, count, k);
  }

  method ReadTables(t: Tables, list: array<Connection>, k: Lookups) returns (count: nat)
    requires TablesAreHex(t) && PrintsV6(k.ntop)
    modifies list
    ensures count <= list.Length && list[..count] == Capped(AllRows(t, k), list.Length)
  {
    ghost var a, b := TableRows(Tcp, t.tcp, k), TableRows(Udp, t.udp, k);
    ghost var c := TableRows(Tcp, t.tcp6, k);
    count := AppendTable(t.tcp, Tcp, list, 0, k, []);
    assert [] + a == a;
    count := AppendTable(t.udp, Udp, list, count, k, a);
    count := AppendTable(t.tcp6, Tcp, list, count, k, a + b);
    count := AppendTable(t.udp6, Udp, list, count, k, a + b + c);
  }

  /** The collected rows before sorting. */
  ghost function Collected(t: Tables, owners: seq<OwnerEntry>, k: Lookups, max: nat): seq<Connection> {
    WithOwners(Capped(AllRows(t, k), max), owners)
  }

  /** `get_connection_info`: a permutation of the accepted rows of the four tables, as far as they fit, each
      with its owner, sorted by the priority of its state. */
  method GetConnectionInfo(t: Tables, owners: seq<OwnerEntry>, k: Lookups, list: array<Connection>) returns (count: nat)
    requires TablesAreHex(t) && PrintsV6(k.ntop)
    modifies list
    ensures count <= list.Length
    ensures multiset(list[..count]) == multiset(Collected(t, owners, k, list.Length))
    ensures SortedBy(CompareConnections, list[..count])
  {
    count := ReadTables(t, list, k);
    ApplySocketOwnerMap(list, count, owners);
    SortFirst(list, count);
  }

  /** `qsort` of the first `count` elements. */
  method SortFirst(list: array<Connection>, count: nat)
    requires count <= list.Length
    modifies list
    ensures multiset(list[..count]) == multiset(old(list[..count]))
    ensures SortedBy(CompareConnections, list[..count])
  {
    CompareIsPreorder();
    var part := CopyOut(list, count);
    Sort(part, CompareConnections);
    CopyIn(list, part);
  }

  method CopyOut(list: array<Connection>, count: nat) returns (part: array<Connection>)
    requires count <= list.Length
    ensures fresh(part) && part[..] == list[..count]
  {
    var blank := Connection("", "", "", "", 0, 0, "", "", "");
    part := new Connection[count](_ => blank);
    for i := 0 to count
      invariant part[..i] == list[..i]
    {
      part[i] := list[i];
    }
  }

  method CopyIn(list: array<Connection>, part: array<Connection>)
    requires part.Length <= list.Length && list != part
    modifies list
    ensures list[..part.Length] == part[..]
  {
    for i := 0 to part.Length
      invariant list[..i] == part[..i]
    {
      list[i] := part[i];
    }
  }

  // ---------------------------------------------------------------- what the list holds

  /** States that no listed connection is in; TCP rows in them are skipped. */
  const UNLISTED: set<string> := {"TIME_WAIT", "CLOSE", "CLOSE_WAIT", "LAST_ACK", "CLOSING"}

  lemma {:induction false} RowStates(p: Protocol, lines: seq<RawLine>, k: Lookups, c: Connection)
    requires c in Rows(p, lines, k)
    ensures c.state !in UNLISTED
  {
    var line := lines[|lines| - 1];
    if IsAccepted(p, line) && c == RowOf(p, line, k) {
      AcceptedState(p, line.state);
    } else {
      RowStates(p, lines[..|lines| - 1], k, c);
    }
  }

  /** Every collected row is an accepted row of a table with its owner filled in. */
  lemma CollectedRow(t: Tables, owners: seq<OwnerEntry>, k: Lookups, max: nat, c: Connection)
    returns (p: Protocol, table: Option<seq<RawLine>>, row: Connection)
    requires c in Collected(t, owners, k, max)
    ensures row in TableRows(p, table, k) && c == WithOwner(row, owners)
  {
    var rows := Capped(AllRows(t, k), max);
    var i :| 0 <= i < |rows| && Collected(t, owners, k, max)[i] == c;
    row := rows[i];
    assert row == AllRows(t, k)[i] && row in AllRows(t, k);
    if row in TableRows(Tcp, t.tcp, k) {
      p, table := Tcp, t.tcp;
    } else if row in TableRows(Udp, t.udp, k) {
      p, table := Udp, t.udp;
    } else if row in TableRows(Tcp, t.tcp6, k) {
      p, table := Tcp, t.tcp6;
    } else {
      p, table := Udp, t.udp6;
    }
  }

  /** No connection of the list is in one of these states, so the priority of TIME_WAIT is never used. */
  lemma ListedStates(list: seq<Connection>, t: Tables, owners: seq<OwnerEntry>, k: Lookups, max: nat, c: Connection)
    requires multiset(list) == multiset(Collected(t, owners, k, max)) && c in list
    ensures c.state !in UNLISTED && StatePriority(c.state) != 2
  {
    assert c in multiset(Collected(t, owners, k, max));
    var p, table, row := CollectedRow(t, owners, k, max, c);
    RowStates(p, table.value[1..], k, row);
    assert row.state != "TIME_WAIT";
  }

  lemma AcceptedState(p: Protocol, state: int)
    requires !Skipped(p, state)
    ensures StateName(p, state) !in UNLISTED
  {
  }

  lemma {:induction false} RowEndpointsSplit(p: Protocol, lines: seq<RawLine>, k: Lookups, c: Connection)
    requires PrintsV6(k.ntop) && c in Rows(p, lines, k)
    ensures c.local == "-" || SplitEndpoint(c.local, ENDPOINT_SIZE, PORT_SIZE).Some?
    ensures c.remote == "-" || SplitEndpoint(c.remote, ENDPOINT_SIZE, PORT_SIZE).Some?
  {
    var line := lines[|lines| - 1];
    if IsAccepted(p, line) && c == RowOf(p, line, k) {
      if c.local != "-" {
        var host, port := DecodedTextSplits(line.localHex, k.ntop);
      }
      if c.remote != "-" {
        var host, port := DecodedTextSplits(line.remoteHex, k.ntop);
      }
    } else {
      RowEndpointsSplit(p, lines[..|lines| - 1], k, c);
    }
  }

  /** Every listed endpoint is the placeholder or splits into a host and a port. */
  lemma ListedEndpointsSplit(list: seq<Connection>, t: Tables, owners: seq<OwnerEntry>, k: Lookups, max: nat, c: Connection)
    requires PrintsV6(k.ntop) && multiset(list) == multiset(Collected(t, owners, k, max)) && c in list
    ensures c.local == "-" || SplitEndpoint(c.local, ENDPOINT_SIZE, PORT_SIZE).Some?
    ensures c.remote == "-" || SplitEndpoint(c.remote, ENDPOINT_SIZE, PORT_SIZE).Some?
  {
    assert c in multiset(Collected(t, owners, k, max));
    var p, table, row := CollectedRow(t, owners, k, max, c);
    RowEndpointsSplit(p, table.value[1..], k, row);
  }

  /** In a sorted list, established connections come first, then listeners, then all others. */
  lemma SortedStates(s: seq<Connection>, i: nat, j: nat)
    requires SortedBy(CompareConnections, s) && i < j < |s|
    ensures s[j].state == "ESTABLISHED" ==> s[i].state == "ESTABLISHED"
    ensures s[j].state == "LISTEN" ==> s[i].state == "ESTABLISHED" || s[i].state == "LISTEN"
  {
    assert CompareConnections(s[i], s[j]) <= 0;
  }
}
