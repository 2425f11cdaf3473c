/** The command line's JSON listings (`trfx_cli_output`). */
module CliOutput {
  import opened History
  import opened CStrings
  import opened Samples
  import opened JsonText

  // ---------------------------------------------------------------- filters

  /** `--proto` and `--state`, when given. */
  datatype Filters = Filters(proto: Option<string>, state: Option<string>)

  predicate Matches(c: Connection, f: Filters) {
    (f.proto.Some? ==> c.protocol == f.proto.value) && (f.state.Some? ==> c.state == f.state.value)
  }

  predicate IsListener(c: Connection) {
    c.state == "LISTEN" || (c.protocol == "UDP" && c.state == "UNCONN")
  }

  /** The rows that pass a filter, in order. */
  function Kept<T>(rows: seq<T>, keep: T -> bool): seq<T> {
    if rows == [] then []
    else
      var rest, last := Kept(rows[..|rows| - 1], keep), rows[|rows| - 1];
      if keep(last) then rest + [last] else rest
  }

  lemma {:induction false} KeptAre<T>(rows: seq<T>, keep: T -> bool, x: T)
    ensures x in Kept(rows, keep) <==> x in rows && keep(x)
  {
    if rows != [] {
      assert rows == rows[..|rows| - 1] + [rows[|rows| - 1]];
      KeptAre(rows[..|rows| - 1], keep, x);
    }
  }

  /** One more row: kept behind the others, or not at all. */
  lemma KeptMore<T>(rows: seq<T>, i: nat, keep: T -> bool)
    requires i < |rows|
    ensures Kept(rows[..i + 1], keep) == if keep(rows[i]) then Kept(rows[..i], keep) + [rows[i]] else Kept(rows[..i], keep)
  {
    assert rows[..i + 1][..i] == rows[..i];
  }

  // ---------------------------------------------------------------- the listings as JSON values

  function ConnectionJson(c: Connection): Json {
    Obj([("proto", Str(c.protocol)), ("local", Str(c.local)), ("remote", Str(c.remote)), ("state", Str(c.state)),
         ("uid", Number(c.uid)), ("user", Str(c.user)), ("pid", Str(c.pid)), ("process", Str(c.process))])
  }

  function ListenerJson(c: Connection): Json {
    Obj([("proto", Str(c.protocol)), ("local", Str(c.local)), ("uid", Number(c.uid)), ("user", Str(c.user)),
         ("pid", Str(c.pid)), ("process", Str(c.process))])
  }

  function InterfaceJson(s: InterfaceStat): Json {
    Obj([("interface", Str(s.name)), ("rx_bytes", Number(s.rx)), ("tx_bytes", Number(s.tx))])
  }

  function Listing(name: string, items: seq<Json>): Json {
    Obj([(name, Arr(items))])
  }

  function Matching(rows: seq<Connection>, f: Filters): seq<Connection> {
    Kept(rows, c => Matches(c, f))
  }

  function Mapped<T>(rows: seq<T>, json: T -> Json): (r: seq<Json>)
    ensures |r| == |rows| && forall i :: 0 <= i < |rows| ==> r[i] == json(rows[i])
  {
    seq(|rows|, i requires 0 <= i < |rows| => json(rows[i]))
  }

  lemma MappedAppend<T>(rows: seq<T>, row: T, json: T -> Json)
    ensures Mapped(rows + [row], json) == Mapped(rows, json) + [json(row)]
  {
  }

  // ---------------------------------------------------------------- text of the fixed parts

  /** Bytes that need no escape. */
  predicate Plain(s: string) {
    forall i :: 0 <= i < |s| ==> s[i] >= ' ' && s[i] != '"' && s[i] != '\\'
  }

  /** None of the names the printers use needs an escape. */
  lemma NamesArePlain()
    ensures Plain("proto") && Plain("local") && Plain("remote") && Plain("state") && Plain("uid") && Plain("user")
    ensures Plain("pid") && Plain("process") && Plain("interface") && Plain("rx_bytes") && Plain("tx_bytes")
    ensures Plain("connections") && Plain("listeners") && Plain("interfaces")
  {
  }

  lemma {:induction false} PlainQuote(s: string)
    requires Plain(s)
    ensures EscapeAll(s) == s && Quote(s) == "\"" + s + "\""
  {
    if s != [] {
      PlainQuote(s[1..]);
    }
  }

  lemma MemberText(name: string, v: Json)
    requires Plain(name)
    ensures EmitMember((name, v)) == "\"" + name + "\":" + Emit(v)
  {
    PlainQuote(name);
  }

  lemma MemberWritten(before: string, separator: string, name: string, v: Json)
    requires Plain(name)
    ensures before + separator + ("\"" + name + "\":") + Emit(v) == before + (separator + EmitMember((name, v)))
  {
    MemberText(name, v);
  }

  lemma {:induction false} EmitMembersAppend(ms: seq<(string, Json)>, m: (string, Json))
    ensures EmitMembers(ms + [m]) == if ms == [] then EmitMember(m) else EmitMembers(ms) + "," + EmitMember(m)
    decreases |ms|
  {
    if ms == [] {
      assert ms + [m] == [m];
    } else {
      assert (ms + [m])[1..] == ms[1..] + [m];
      EmitMembersAppend(ms[1..], m);
    }
  }

  lemma {:induction false} EmitItemsAppend(items: seq<Json>, v: Json)
    ensures EmitItems(items + [v]) == if items == [] then Emit(v) else EmitItems(items) + "," + Emit(v)
    decreases |items|
  {
    if items == [] {
      assert items + [v] == [v];
    } else {
      assert (items + [v])[1..] == items[1..] + [v];
      EmitItemsAppend(items[1..], v);
    }
  }

  lemma ListingText(name: string, items: seq<Json>)
    requires Plain(name)
    ensures Emit(Listing(name, items)) == "{\"" + name + "\":[" + EmitItems(items) + "]}"
  {
    MemberText(name, Arr(items));
  }

  lemma QuoteText(head: string, value: string)
    ensures head + "\"" + EscapeAll(value) + "\"" == head + Quote(value)
  {
  }

  lemma EscapeAllMore(head: string, value: string, p: nat)
    requires p < |value|
    ensures head + EscapeAll(value[..p]) + EscapeChar(value[p]) == head + EscapeAll(value[..p + 1])
  {
    EscapeAllAppend(value[..p], value[p]);
    assert value[..p + 1] == value[..p] + [value[p]];
  }

  lemma {:induction false} EscapeAllAppend(s: string, c: char)
    ensures EscapeAll(s + [c]) == EscapeAll(s) + EscapeChar(c)
  {
    if s == [] {
      assert s + [c] == [c];
    } else {
      assert (s + [c])[1..] == s[1..] + [c];
      EscapeAllAppend(s[1..], c);
    }
  }

  /** What stands in the output once the first `k` members of an object are printed after `head`. */
  function MembersText(head: string, ms: seq<(string, Json)>, k: nat): string
    requires k <= |ms|
  {
    if k == 0 then head
    else MembersText(head, ms, k - 1) + ((if k == 1 then "{" else ",") + EmitMember(ms[k - 1]))
  }

  lemma Regroup(h: string, a: string, b: string)
    ensures h + ("{" + a) + ("," + b) == h + ("{" + (a + "," + b))
  {
  }

  lemma MoreMembers(head: string, ms: seq<(string, Json)>, k: nat)
    requires 1 < k <= |ms|
    ensures head + ("{" + EmitMembers(ms[..k - 1])) + ("," + EmitMember(ms[k - 1])) == head + ("{" + EmitMembers(ms[..k]))
  {
    var before, more := EmitMembers(ms[..k - 1]), EmitMember(ms[k - 1]);
    assert EmitMembers(ms[..k]) == before + "," + more by {
      assert ms[..k - 1] + [ms[k - 1]] == ms[..k];
      EmitMembersAppend(ms[..k - 1], ms[k - 1]);
    }
    Regroup(head, before, more);
  }

  lemma {:induction false} MembersTextIs(head: string, ms: seq<(string, Json)>, k: nat)
    requires 0 < k <= |ms|
    ensures MembersText(head, ms, k) == head + ("{" + EmitMembers(ms[..k]))
  {
    if k == 1 {
      assert ms[..1] == [ms[0]];
      assert MembersText(head, ms, 0) == head;
    } else {
      MembersTextIs(head, ms, k - 1);
      MoreMembers(head, ms, k);
    }
  }

  /** The members printed one after the other and a brace are the object's text. */
  lemma MembersTextIsObject(head: string, ms: seq<(string, Json)>)
    requires ms != []
    ensures MembersText(head, ms, |ms|) + "}" == head + Emit(Obj(ms))
  {
    MembersTextIs(head, ms, |ms|);
    assert ms[..|ms|] == ms;
  }

  /** What stands in the output once the rows are printed after `head`, with commas between them. */
  function RowsText(head: string, items: seq<Json>): string {
    if items == [] then head
    else
      RowsText(head, items[..|items| - 1]) + (if |items| == 1 then "" else ",") + Emit(items[|items| - 1])
  }

  lemma RowsTextMore(head: string, items: seq<Json>, v: Json)
    ensures RowsText(head, items + [v]) == RowsText(head, items) + (if items == [] then "" else ",") + Emit(v)
  {
    assert (items + [v])[..|items|] == items;
  }

  lemma RowMore<T>(head: string, rows: seq<T>, row: T, json: T -> Json)
    ensures RowsText(head, Mapped(rows + [row], json)) ==
            RowsText(head, Mapped(rows, json)) + (if rows == [] then "" else ",") + Emit(json(row))
  {
    MappedAppend(rows, row, json);
    RowsTextMore(head, Mapped(rows, json), json(row));
    assert Mapped(rows, json) == [] <==> rows == [];
  }

  lemma RegroupRows(h: string, a: string, b: string)
    ensures h + a + "," + b == h + (a + "," + b)
  {
  }

  lemma {:induction false} RowsTextIs(head: string, items: seq<Json>)
    ensures RowsText(head, items) == head + EmitItems(items)
  {
    if |items| == 1 {
      assert items[..0] == [];
      assert RowsText(head, items) == head + "" + Emit(items[0]);
      assert head + "" == head;
    } else if |items| > 1 {
      var front, last := items[..|items| - 1], items[|items| - 1];
      RowsTextIs(head, front);
      EmitItemsAppend(front, last);
      assert front + [last] == items;
      RegroupRows(head, EmitItems(front), Emit(last));
    }
  }

  lemma ListingIsRows(before: string, name: string, items: seq<Json>)
    requires Plain(name)
    ensures RowsText(before + ("{\"" + name + "\":["), items) + "]}" == before + Emit(Listing(name, items))
  {
    RowsTextIs(before + ("{\"" + name + "\":["), items);
    ListingText(name, items);
    RegroupListing(before, name, EmitItems(items));
  }

  lemma RegroupListing(before: string, name: string, rows: string)
    ensures before + ("{\"" + name + "\":[") + rows + "]}" == before + ("{\"" + name + "\":[" + rows + "]}")
  {
  }

  // ---------------------------------------------------------------- the printers

  /** A `FILE *` being written: everything written so far. */
  class Output {
    var text: string

    constructor ()
      ensures text == ""
    {
      text := "";
    }

    method Put(c: char)
      modifies this
      ensures text == old(text) + [c]
    {
      text := text + [c];
    }

    method Write(s: string)
      modifies this
      ensures text == old(text) + s
    {
      text := text + s;
    }

    /** The `switch` of `print_json_string`. */
    method PutEscaped(c: char)
      modifies this
      ensures text == old(text) + EscapeChar(c)
    {
      match c {
        case '"' => Write("\\\"");
        case '\\' => Write("\\\\");
        case '\U{0008}' => Write("\\b");
        case '\U{000c}' => Write("\\f");
        case '\n' => Write("\\n");
        case '\r' => Write("\\r");
        case '\t' => Write("\\t");
        case _ =>
          if c < ' ' {
            Write("\\u00" + [HexDigit(c as nat / 16), HexDigit(c as nat % 16)]);
          } else {
            Put(c);
          }
      }
    }

    /** `print_json_string`, byte by byte. */
    method PrintJsonString(value: string)
      modifies this
      ensures text == old(text) + Quote(value)
    {
      Put('"');
      PrintEscaped(value);
      Put('"');
      QuoteText(old(text), value);
    }

    /** The loop of `print_json_string`. */
    method PrintEscaped(value: string)
      modifies this
      ensures text == old(text) + EscapeAll(value)
    {
      for p := 0 to |value|
        invariant text == old(text) + EscapeAll(value[..p])
      {
        PutEscaped(value[p]);
        EscapeAllMore(old(text), value, p);
      }
      assert value[..|value|] == value;
    }

    /** A string member of the object being printed, with what stands before its name. */
    method PrintString(separator: string, name: string, value: string)
      requires Plain(name)
      modifies this
      ensures text == old(text) + (separator + EmitMember((name, Str(value))))
    {
      Write(separator);
      Write("\"" + name + "\":");
      PrintJsonString(value);
      MemberWritten(old(text), separator, name, Str(value));
    }

    /** A `%u` or `%lu` member. */
    method PrintNumber(separator: string, name: string, n: nat)
      requires Plain(name)
      modifies this
      ensures text == old(text) + (separator + EmitMember((name, Number(n))))
    {
      Write(separator);
      Write("\"" + name + "\":");
      Write(Decimal(n));
      MemberWritten(old(text), separator, name, Number(n));
    }

    /** How every listing starts and ends. */
    method Open(name: string)
      modifies this
      ensures text == old(text) + ("{\"" + name + "\":[")
    {
      Write("{\"" + name + "\":[");
    }

    method Close()
      modifies this
      ensures text == old(text) + "]}" + "\n"
    {
      Write("]}\n");
      assert "]}\n" == "]}" + "\n";
    }

    /** The members every row about a socket starts with. */
    method PrintStart(c: Connection, ghost ms: seq<(string, Json)>)
      requires |ms| >= 2 && ms[0] == ("proto", Str(c.protocol)) && ms[1] == ("local", Str(c.local))
      modifies this
      ensures text == MembersText(old(text), ms, 2)
    {
      ghost var head := text;
      NamesArePlain();
      PrintString("{", "proto", c.protocol);
      assert text == MembersText(head, ms, 1);
      PrintString(",", "local", c.local);
    }

    /** The members every row about a socket ends with. */
    method PrintOwner(c: Connection, ghost head: string, ghost ms: seq<(string, Json)>, ghost k: nat)
      requires 0 < k && k + 4 == |ms| && text == MembersText(head, ms, k)
      requires ms[k] == ("uid", Number(c.uid)) && ms[k + 1] == ("user", Str(c.user))
      requires ms[k + 2] == ("pid", Str(c.pid)) && ms[k + 3] == ("process", Str(c.process))
      modifies this
      ensures text == MembersText(head, ms, k + 4) + "}"
    {
      NamesArePlain();
      PrintNumber(",", "uid", c.uid);
      assert text == MembersText(head, ms, k + 1);
      PrintString(",", "user", c.user);
      assert text == MembersText(head, ms, k + 2);
      PrintString(",", "pid", c.pid);
      assert text == MembersText(head, ms, k + 3);
      PrintString(",", "process", c.process);
      Put('}');
    }

    method PrintMiddle(c: Connection, ghost head: string, ghost ms: seq<(string, Json)>)
      requires |ms| >= 4 && ms[2] == ("remote", Str(c.remote)) && ms[3] == ("state", Str(c.state))
      requires text == MembersText(head, ms, 2)
      modifies this
      ensures text == MembersText(head, ms, 4)
    {
      NamesArePlain();
      PrintString(",", "remote", c.remote);
      assert text == MembersText(head, ms, 3);
      PrintString(",", "state", c.state);
    }

    /** The eight members of a connection row; `ms` lists them. */
    method PrintConnection(c: Connection, ghost ms: seq<(string, Json)>)
      requires |ms| == 8 && ms[0] == ("proto", Str(c.protocol)) && ms[1] == ("local", Str(c.local))
      requires ms[2] == ("remote", Str(c.remote)) && ms[3] == ("state", Str(c.state))
      requires ms[4] == ("uid", Number(c.uid)) && ms[5] == ("user", Str(c.user))
      requires ms[6] == ("pid", Str(c.pid)) && ms[7] == ("process", Str(c.process))
      modifies this
      ensures text == MembersText(old(text), ms, 8) + "}"
    {
      ghost var head := text;
      PrintStart(c, ms);
      PrintMiddle(c, head, ms);
      PrintOwner(c, head, ms, 4);
    }

    method PrintListener(c: Connection)
      modifies this
      ensures text == MembersText(old(text), ListenerJson(c).members, 6) + "}"
    {
      ghost var ms, head := ListenerJson(c).members, text;
      PrintStart(c, ms);
      PrintOwner(c, head, ms, 2);
    }

    method PrintInterface(s: InterfaceStat)
      modifies this
      ensures text == MembersText(old(text), InterfaceJson(s).members, 3) + "}"
    {
      ghost var ms, head := InterfaceJson(s).members, text;
      NamesArePlain();
      PrintString("{", "interface", s.name);
      assert text == MembersText(head, ms, 1);
      PrintNumber(",", "rx_bytes", s.rx);
      assert text == MembersText(head, ms, 2);
      PrintNumber(",", "tx_bytes", s.tx);
      assert text == MembersText(head, ms, 3);
      Put('}');
    }

    method PrintConnectionRow(c: Connection, ghost j: Json)
      requires j == ConnectionJson(c)
      modifies this
      ensures text == old(text) + Emit(j)
    {
      ghost var head := text;
      PrintConnection(c, j.members);
      MembersTextIsObject(head, j.members);
    }

    method PrintListenerRow(c: Connection, ghost j: Json)
      requires j == ListenerJson(c)
      modifies this
      ensures text == old(text) + Emit(j)
    {
      ghost var head := text;
      PrintListener(c);
      MembersTextIsObject(head, j.members);
    }

    method PrintInterfaceRow(s: InterfaceStat, ghost j: Json)
      requires j == InterfaceJson(s)
      modifies this
      ensures text == old(text) + Emit(j)
    {
      ghost var head := text;
      PrintInterface(s);
      MembersTextIsObject(head, j.members);
    }

    /** One turn of the loop over the connections; `rows` are those printed so far. */
    method PrintIfMatching(c: Connection, f: Filters, written: nat, ghost head: string, ghost rows: seq<Connection>)
      returns (count: nat)
      requires text == RowsText(head, Mapped(rows, ConnectionJson)) && written == |rows|
      modifies this
      ensures var now := if Matches(c, f) then rows + [c] else rows;
              text == RowsText(head, Mapped(now, ConnectionJson)) && count == |now|
    {
      count := written;
      if !Matches(c, f) {
        return;
      }
      RowMore(head, rows, c, ConnectionJson);
      if written > 0 {
        Put(',');
      }
      PrintConnectionRow(c, ConnectionJson(c));
      count := count + 1;
    }

    method PrintConnectionsRows(connections: seq<Connection>, f: Filters)
      modifies this
      ensures text == RowsText(old(text), Mapped(Matching(connections, f), ConnectionJson))
    {
      ghost var rows: seq<Connection> := [];
      var written := 0;
      for i := 0 to |connections|
        invariant rows == Matching(connections[..i], f) && written == |rows|
        invariant text == RowsText(old(text), Mapped(rows, ConnectionJson))
      {
        KeptMore(connections, i, c => Matches(c, f));
        written := PrintIfMatching(connections[i], f, written, old(text), rows);
        rows := Matching(connections[..i + 1], f);
      }
      assert connections[..|connections|] == connections;
    }

    /** `trfx_print_connections_json`. */
    method PrintConnections(connections: seq<Connection>, f: Filters)
      modifies this
      ensures text == old(text) + Emit(Listing("connections", Mapped(Matching(connections, f), ConnectionJson))) + "\n"
    {
      NamesArePlain();
      Open("connections");
      PrintConnectionsRows(connections, f);
      ListingIsRows(old(text), "connections", Mapped(Matching(connections, f), ConnectionJson));
      Close();
    }

    /** One turn of the loop over the connections; `rows` are the listeners printed so far. */
    method PrintIfListener(c: Connection, written: nat, ghost head: string, ghost rows: seq<Connection>)
      returns (count: nat)
      requires text == RowsText(head, Mapped(rows, ListenerJson)) && written == |rows|
      modifies this
      ensures var now := if IsListener(c) then rows + [c] else rows;
              text == RowsText(head, Mapped(now, ListenerJson)) && count == |now|
    {
      count := written;
      if !IsListener(c) {
        return;
      }
      RowMore(head, rows, c, ListenerJson);
      if written > 0 {
        Put(',');
      }
      PrintListenerRow(c, ListenerJson(c));
      count := count + 1;
    }

    method PrintListenersRows(connections: seq<Connection>)
      modifies this
      ensures text == RowsText(old(text), Mapped(Kept(connections, IsListener), ListenerJson))
    {
      ghost var rows: seq<Connection> := [];
      var written := 0;
      for i := 0 to |connections|
        invariant rows == Kept(connections[..i], IsListener) && written == |rows|
        invariant text == RowsText(old(text), Mapped(rows, ListenerJson))
      {
        KeptMore(connections, i, IsListener);
        written := PrintIfListener(connections[i], written, old(text), rows);
        rows := Kept(connections[..i + 1], IsListener);
      }
      assert connections[..|connections|] == connections;
    }

    /** `trfx_print_listeners_json`. */
    method PrintListeners(connections: seq<Connection>)
      modifies this
      ensures text == old(text) + Emit(Listing("listeners", Mapped(Kept(connections, IsListener), ListenerJson))) + "\n"
    {
      NamesArePlain();
      Open("listeners");
      PrintListenersRows(connections);
      ListingIsRows(old(text), "listeners", Mapped(Kept(connections, IsListener), ListenerJson));
      Close();
    }

    /** A comma before every row but the first. */
    method PrintInterfacesRows(stats: seq<InterfaceStat>)
      modifies this
      ensures text == RowsText(old(text), Mapped(stats, InterfaceJson))
    {
      ghost var head := text;
      for i := 0 to |stats|
        invariant text == RowsText(head, Mapped(stats[..i], InterfaceJson))
      {
        MoreInterfaces(head, stats, i);
        if i > 0 {
          Put(',');
        }
        PrintInterfaceRow(stats[i], InterfaceJson(stats[i]));
      }
      assert stats[..|stats|] == stats;
    }

    /** `trfx_print_interfaces_json`. */
    method PrintInterfaces(stats: seq<InterfaceStat>)
      modifies this
      ensures text == old(text) + Emit(Listing("interfaces", Mapped(stats, InterfaceJson))) + "\n"
    {
      NamesArePlain();
      Open("interfaces");
      PrintInterfacesRows(stats);
      ListingIsRows(old(text), "interfaces", Mapped(stats, InterfaceJson));
      Close();
    }
  }

  lemma MoreInterfaces(head: string, stats: seq<InterfaceStat>, i: nat)
    requires i < |stats|
    ensures RowsText(head, Mapped(stats[..i + 1], InterfaceJson)) ==
            RowsText(head, Mapped(stats[..i], InterfaceJson)) + (if i > 0 then "," else "") + Emit(InterfaceJson(stats[i]))
  {
    MappedAppend(stats[..i], stats[i], InterfaceJson);
    RowsTextMore(head, Mapped(stats[..i], InterfaceJson), InterfaceJson(stats[i]));
    assert stats[..i + 1] == stats[..i] + [stats[i]];
  }

  // ---------------------------------------------------------------- reading a listing back

  /** What a printed connection row shows. */
  datatype ConnectionRow = ConnectionRow(
    proto: string, local: string, remote: string, state: string, uid: nat, user: string, pid: string, process: string)

  datatype ListenerRow = ListenerRow(proto: string, local: string, uid: nat, user: string, pid: string, process: string)

  function ShownConnection(c: Connection): ConnectionRow {
    ConnectionRow(c.protocol, c.local, c.remote, c.state, c.uid, c.user, c.pid, c.process)
  }

  function ShownListener(c: Connection): ListenerRow {
    ListenerRow(c.protocol, c.local, c.uid, c.user, c.pid, c.process)
  }

  /** The value of the first member with this name. */
  function Member(members: seq<(string, Json)>, name: string): Option<Json> {
    if members == [] then None
    else if members[0].0 == name then Some(members[0].1)
    else Member(members[1..], name)
  }

  function StringMember(j: Json, name: string): Option<string> {
    if !j.Obj? then None
    else match Member(j.members, name) case Some(Str(s)) => Some(s) case _ => None
  }

  function NumberMember(j: Json, name: string): Option<nat> {
    if !j.Obj? then None
    else match Member(j.members, name) case Some(Number(n)) => Some(n) case _ => None
  }

  function ReadConnection(j: Json): Option<ConnectionRow> {
    match (StringMember(j, "proto"), StringMember(j, "local"), StringMember(j, "remote"), StringMember(j, "state"),
           NumberMember(j, "uid"), StringMember(j, "user"), StringMember(j, "pid"), StringMember(j, "process"))
    case (Some(proto), Some(local), Some(remote), Some(state), Some(uid), Some(user), Some(pid), Some(process)) =>
      Some(ConnectionRow(proto, local, remote, state, uid, user, pid, process))
    case _ => None
  }

  function ReadListener(j: Json): Option<ListenerRow> {
    match (StringMember(j, "proto"), StringMember(j, "local"), NumberMember(j, "uid"), StringMember(j, "user"),
           StringMember(j, "pid"), StringMember(j, "process"))
    case (Some(proto), Some(local), Some(uid), Some(user), Some(pid), Some(process)) =>
      Some(ListenerRow(proto, local, uid, user, pid, process))
    case _ => None
  }

  function ReadInterface(j: Json): Option<InterfaceStat> {
    match (StringMember(j, "interface"), NumberMember(j, "rx_bytes"), NumberMember(j, "tx_bytes"))
    case (Some(name), Some(rx), Some(tx)) => Some(InterfaceStat(name, rx, tx))
    case _ => None
  }

  /** Reads every item, or fails if one cannot be read. */
  function ReadItems<T>(items: seq<Json>, read: Json -> Option<T>): Option<seq<T>> {
    if items == [] then Some([])
    else
      match (read(items[0]), ReadItems(items[1..], read))
      case (Some(x), Some(xs)) => Some([x] + xs)
      case _ => None
  }

  /** Decodes a text and reads the named array's items as rows. */
  function ReadListing<T>(text: string, name: string, read: Json -> Option<T>): Option<seq<T>> {
    match Decode(text)
    case Some(Obj(members)) =>
      (match Member(members, name)
       case Some(Arr(items)) => ReadItems(items, read)
       case _ => None)
    case _ => None
  }

  lemma ReadConnectionInverse(c: Connection)
    ensures ReadConnection(ConnectionJson(c)) == Some(ShownConnection(c))
  {
    var ms := ConnectionJson(c).members;
    SkipMembers(ms, 7);
    assert Member(ms, ms[0].0) == Some(ms[0].1);
    assert Member(ms, ms[1].0) == Some(ms[1].1);
    assert Member(ms, ms[2].0) == Some(ms[2].1);
    assert Member(ms, ms[3].0) == Some(ms[3].1);
    assert Member(ms, ms[4].0) == Some(ms[4].1);
    assert Member(ms, ms[5].0) == Some(ms[5].1);
    assert Member(ms, ms[6].0) == Some(ms[6].1);
    assert Member(ms, ms[7].0) == Some(ms[7].1);
  }

  lemma ReadListenerInverse(c: Connection)
    ensures ReadListener(ListenerJson(c)) == Some(ShownListener(c))
  {
    var ms := ListenerJson(c).members;
    SkipMembers(ms, 5);
    assert Member(ms, ms[0].0) == Some(ms[0].1);
    assert Member(ms, ms[1].0) == Some(ms[1].1);
    assert Member(ms, ms[2].0) == Some(ms[2].1);
    assert Member(ms, ms[3].0) == Some(ms[3].1);
    assert Member(ms, ms[4].0) == Some(ms[4].1);
    assert Member(ms, ms[5].0) == Some(ms[5].1);
  }

  lemma ReadInterfaceInverse(s: InterfaceStat)
    ensures ReadInterface(InterfaceJson(s)) == Some(s)
  {
    var ms := InterfaceJson(s).members;
    SkipMembers(ms, 2);
    assert Member(ms, ms[0].0) == Some(ms[0].1);
    assert Member(ms, ms[1].0) == Some(ms[1].1);
    assert Member(ms, ms[2].0) == Some(ms[2].1);
  }

  /** A member is found at its place when the names before it differ. */
  lemma {:induction false} SkipMembers(ms: seq<(string, Json)>, k: nat)
    requires k < |ms| && forall i, j :: 0 <= i < j < |ms| ==> ms[i].0 != ms[j].0
    ensures forall i :: 0 <= i <= k ==> Member(ms, ms[i].0) == Some(ms[i].1)
  {
    if k > 0 {
      SkipMembers(ms[1..], k - 1);
      assert forall i :: 1 <= i <= k ==> ms[1..][i - 1] == ms[i];
    }
  }

  lemma {:induction false} ReadItemsInverse<R, T>(rows: seq<R>, json: R -> Json, read: Json -> Option<T>, shown: R -> T)
    requires forall i :: 0 <= i < |rows| ==> read(json(rows[i])) == Some(shown(rows[i]))
    ensures ReadItems(Mapped(rows, json), read).Some?
    ensures |ReadItems(Mapped(rows, json), read).value| == |rows|
    ensures forall i :: 0 <= i < |rows| ==> ReadItems(Mapped(rows, json), read).value[i] == shown(rows[i])
  {
    if rows != [] {
      assert Mapped(rows, json)[1..] == Mapped(rows[1..], json);
      ReadItemsInverse(rows[1..], json, read, shown);
    }
  }

  /** Decoding what `PrintConnections` writes gives exactly the rows that match the filters, in order,
      every field byte for byte. */
  lemma ConnectionsReadBack(connections: seq<Connection>, f: Filters)
    ensures var kept := Matching(connections, f);
            var text := Emit(Listing("connections", Mapped(kept, ConnectionJson))) + "\n";
            var read := ReadListing(text, "connections", ReadConnection);
            && read.Some? && |read.value| == |kept|
            && forall i :: 0 <= i < |kept| ==> read.value[i] == ShownConnection(kept[i])
  {
    var kept := Matching(connections, f);
    DecodeInvertsEmit(Listing("connections", Mapped(kept, ConnectionJson)));
    forall i | 0 <= i < |kept|
      ensures ReadConnection(ConnectionJson(kept[i])) == Some(ShownConnection(kept[i]))
    {
      ReadConnectionInverse(kept[i]);
    }
    ReadItemsInverse(kept, ConnectionJson, ReadConnection, ShownConnection);
  }

  lemma ListenersReadBack(connections: seq<Connection>)
    ensures var kept := Kept(connections, IsListener);
            var text := Emit(Listing("listeners", Mapped(kept, ListenerJson))) + "\n";
            var read := ReadListing(text, "listeners", ReadListener);
            && read.Some? && |read.value| == |kept|
            && forall i :: 0 <= i < |kept| ==> read.value[i] == ShownListener(kept[i])
  {
    var kept := Kept(connections, IsListener);
    DecodeInvertsEmit(Listing("listeners", Mapped(kept, ListenerJson)));
    forall i | 0 <= i < |kept|
      ensures ReadListener(ListenerJson(kept[i])) == Some(ShownListener(kept[i]))
    {
      ReadListenerInverse(kept[i]);
    }
    ReadItemsInverse(kept, ListenerJson, ReadListener, ShownListener);
  }

  lemma InterfacesReadBack(stats: seq<InterfaceStat>)
    ensures ReadListing(Emit(Listing("interfaces", Mapped(stats, InterfaceJson))) + "\n", "interfaces", ReadInterface)
            == Some(stats)
  {
    DecodeInvertsEmit(Listing("interfaces", Mapped(stats, InterfaceJson)));
    forall i | 0 <= i < |stats|
      ensures ReadInterface(InterfaceJson(stats[i])) == Some(stats[i])
    {
      ReadInterfaceInverse(stats[i]);
    }
    ReadItemsInverse(stats, InterfaceJson, ReadInterface, s => s);
    assert ReadItems(Mapped(stats, InterfaceJson), ReadInterface).value == stats;
  }
}
