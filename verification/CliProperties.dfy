/** What the command-line parser accepts and what it makes of it. */
module CliProperties {
  import opened Cli
  import opened CStrings
  import opened History

  // ---------------------------------------------------------------- profiles

  function WithProfile(o: Options, name: string): Options {
    o.(profile := Fit(name, 64), hasProfile := true)
  }

  lemma WordKeepsProfile(o: Options, arg: string, name: string)
    ensures ParseWord(WithProfile(o, name), arg) == WithProfile(ParseWord(o, arg), name)
  {
  }

  lemma ConfirmedKeepsProfile(o: Options, tail: seq<string>, name: string)
    ensures Confirmed(WithProfile(o, name), tail) == WithProfile(Confirmed(o, tail), name)
  {
  }

  lemma ListingKeepsProfile(o: Options, mode: Mode, rest: seq<string>, name: string)
    ensures ParseListingCommand(WithProfile(o, name), mode, rest) == WithProfile(ParseListingCommand(o, mode, rest), name)
  {
  }

  lemma DropKeepsProfile(o: Options, args: seq<string>, name: string)
    requires |args| >= 5
    ensures ParseDrop(WithProfile(o, name), args) == WithProfile(ParseDrop(o, args), name)
  {
    var scan := DropTarget(o.target, args);
    ConfirmedKeepsProfile(o.(mode := Drop, target := scan.value), args[5..], name);
  }

  lemma BodyKeepsProfile(o: Options, args: seq<string>, name: string)
    requires args != []
    ensures ParseBody(WithProfile(o, name), args) == WithProfile(ParseBody(o, args), name)
  {
    if |args| == 1 {
      WordKeepsProfile(o, args[0], name);
    } else if args[0] == "kill" {
      ConfirmedKeepsProfile(o.(mode := Kill, target := KillTarget(o.target, args[1])), args[2..], name);
    } else if args[0] == "drop" && |args| >= 5 {
      DropKeepsProfile(o, args, name);
    } else if Command(args[0]).Some? {
      ListingKeepsProfile(o, Command(args[0]).value, args[1..], name);
    }
  }

  /** A profile in front adds the profile to what the rest parses to, and nothing else. */
  lemma ProfilePrefix(name: string, rest: seq<string>)
    requires rest != [] && rest[0] != "--profile"
    ensures Parse(["--profile", name] + rest) == WithProfile(Parse(rest), name)
  {
    assert (["--profile", name] + rest)[2..] == rest;
    BodyKeepsProfile(DEFAULTS, rest, name);
  }

  /** A second profile is always rejected. */
  lemma SecondProfileRejected(name: string, rest: seq<string>)
    requires rest != [] && rest[0] == "--profile"
    ensures Parse(["--profile", name] + rest).mode == Rejected
  {
    assert (["--profile", name] + rest)[2..] == rest;
  }

  // ---------------------------------------------------------------- the options of `connections`

  datatype Item = JsonItem | ProtoItem(value: string) | StateItem(value: string)

  function Words(item: Item): (w: seq<string>)
    ensures w != []
  {
    match item
    case JsonItem => ["--json"]
    case ProtoItem(v) => ["--proto", v]
    case StateItem(v) => ["--state", v]
  }

  function Flatten(items: seq<Item>): seq<string> {
    if items == [] then [] else Words(items[0]) + Flatten(items[1..])
  }

  predicate IsGood(item: Item) {
    match item
    case JsonItem => true
    case ProtoItem(v) => ProtoName(v).Some?
    case StateItem(v) => IsState(v)
  }

  predicate SameKind(a: Item, b: Item) {
    a.JsonItem? == b.JsonItem? && a.ProtoItem? == b.ProtoItem?
  }

  /** At most one item of each kind. */
  ghost predicate AtMostOneEach(items: seq<Item>) {
    forall i, j :: 0 <= i < j < |items| ==> !SameKind(items[i], items[j])
  }

  ghost predicate AllGood(items: seq<Item>) {
    forall i :: 0 <= i < |items| ==> IsGood(items[i])
  }

  predicate Taken(l: Listing, item: Item) {
    match item
    case JsonItem => l.json
    case ProtoItem(_) => l.hasProto
    case StateItem(_) => l.hasState
  }

  ghost predicate NoneTaken(l: Listing, items: seq<Item>) {
    forall i :: 0 <= i < |items| ==> !Taken(l, items[i])
  }

  function Apply(l: Listing, item: Item): Listing
    requires IsGood(item)
  {
    match item
    case JsonItem => l.(json := true)
    case ProtoItem(v) => l.(proto := ProtoName(v).value, hasProto := true)
    case StateItem(v) => l.(state := v, hasState := true)
  }

  lemma ListingStep(l: Listing, item: Item, rest: seq<string>)
    requires IsGood(item)
    ensures ListingOptions(l, true, Words(item) + rest) ==
            if Taken(l, item) then Stuck(l, Words(item)[0]) else ListingOptions(Apply(l, item), true, rest)
  {
    var args := Words(item) + rest;
    assert args[0] == Words(item)[0];
    assert args[|Words(item)|..] == rest;
  }

  /** The state after items, if each of them is of a kind that is still free. */
  function ApplyAll(l: Listing, items: seq<Item>): Scan<Listing>
    requires AllGood(items)
    decreases |items|
  {
    if items == [] then Fine(l)
    else if Taken(l, items[0]) then Stuck(l, Words(items[0])[0])
    else ApplyAll(Apply(l, items[0]), items[1..])
  }

  lemma {:induction false} ItemsApplied(l: Listing, items: seq<Item>)
    requires AllGood(items)
    ensures ListingOptions(l, true, Flatten(items)) == ApplyAll(l, items)
    decreases |items|
  {
    if items != [] {
      ListingStep(l, items[0], Flatten(items[1..]));
      if !Taken(l, items[0]) {
        ItemsApplied(Apply(l, items[0]), items[1..]);
      }
    }
  }

  /** After an item is applied, what is still free is what was free and of another kind. */
  lemma TakenAfter(l: Listing, item: Item, other: Item)
    requires IsGood(item)
    ensures Taken(Apply(l, item), other) <==> Taken(l, other) || SameKind(item, other)
  {
  }

  lemma HeadAndTail(l: Listing, items: seq<Item>)
    requires items != [] && AllGood(items) && !Taken(l, items[0])
    ensures AtMostOneEach(items) && NoneTaken(l, items) <==>
            AtMostOneEach(items[1..]) && NoneTaken(Apply(l, items[0]), items[1..])
  {
    var tail, l1 := items[1..], Apply(l, items[0]);
    forall i: nat | i < |tail|
      ensures Taken(l1, tail[i]) <==> Taken(l, items[i + 1]) || SameKind(items[0], items[i + 1])
    {
      TakenAfter(l, items[0], items[i + 1]);
    }
    if AtMostOneEach(tail) && NoneTaken(l1, tail) {
      forall i, j | 0 <= i < j < |items|
        ensures !SameKind(items[i], items[j])
      {
        assert !Taken(l1, tail[j - 1]);
        assert i > 0 ==> !SameKind(tail[i - 1], tail[j - 1]);
      }
      forall i | 0 <= i < |items|
        ensures !Taken(l, items[i])
      {
        assert i > 0 ==> !Taken(l1, tail[i - 1]);
      }
    }
  }

  /** Items in any order are accepted exactly when no kind repeats. */
  lemma {:induction false} ItemsAccepted(l: Listing, items: seq<Item>)
    requires AllGood(items)
    ensures ApplyAll(l, items).Fine? <==> AtMostOneEach(items) && NoneTaken(l, items)
    decreases |items|
  {
    if items != [] && !Taken(l, items[0]) {
      HeadAndTail(l, items);
      ItemsAccepted(Apply(l, items[0]), items[1..]);
    }
  }

  /** Each kind of option is what its one item says, or untouched. */
  ghost predicate IsResult(r: Listing, l: Listing, items: seq<Item>) {
    && (r.json <==> l.json || JsonItem in items)
    && (forall v :: ProtoItem(v) in items ==> r.hasProto && ProtoName(v) == Some(r.proto))
    && ((forall v :: ProtoItem(v) !in items) ==> r.hasProto == l.hasProto && r.proto == l.proto)
    && (forall v :: StateItem(v) in items ==> r.hasState && v == r.state)
    && ((forall v :: StateItem(v) !in items) ==> r.hasState == l.hasState && r.state == l.state)
  }

  lemma {:induction false} ItemsResult(l: Listing, items: seq<Item>)
    requires AllGood(items) && AtMostOneEach(items) && NoneTaken(l, items)
    ensures ApplyAll(l, items).Fine? && IsResult(ApplyAll(l, items).value, l, items)
    decreases |items|
  {
    if items != [] {
      HeadAndTail(l, items);
      ItemsResult(Apply(l, items[0]), items[1..]);
      ResultExtends(ApplyAll(l, items).value, l, items[0], items[1..]);
      assert items == [items[0]] + items[1..];
    }
  }

  lemma ResultExtends(r: Listing, l: Listing, item: Item, tail: seq<Item>)
    requires IsGood(item) && (forall i :: 0 <= i < |tail| ==> !SameKind(item, tail[i]))
    requires IsResult(r, Apply(l, item), tail)
    ensures IsResult(r, l, [item] + tail)
  {
    assert forall x :: x in [item] + tail <==> x == item || x in tail;
    assert forall x :: x in tail ==> !SameKind(item, x);
  }

  lemma SameResult(r: Listing, s: Listing, l: Listing, items: seq<Item>, other: seq<Item>)
    requires IsResult(r, l, items) && IsResult(s, l, other) && (forall x :: x in items <==> x in other)
    ensures r == s
  {
    if v :| ProtoItem(v) in items {
      assert Some(r.proto) == ProtoName(v) == Some(s.proto);
    }
  }

  /** What is accepted is a list of good items. */
  lemma {:induction false} AcceptedIsItems(l: Listing, rest: seq<string>) returns (items: seq<Item>)
    requires ListingOptions(l, true, rest).Fine?
    ensures AllGood(items) && rest == Flatten(items)
    decreases |rest|
  {
    if rest == [] {
      items := [];
    } else {
      var item := FirstItem(l, rest);
      var tail := AcceptedIsItems(Apply(l, item), rest[|Words(item)|..]);
      items := [item] + tail;
      assert items[1..] == tail;
    }
  }

  lemma FirstItem(l: Listing, rest: seq<string>) returns (item: Item)
    requires rest != [] && ListingOptions(l, true, rest).Fine?
    ensures IsGood(item) && |Words(item)| <= |rest| && rest == Words(item) + rest[|Words(item)|..]
    ensures ListingOptions(Apply(l, item), true, rest[|Words(item)|..]).Fine?
  {
    item := if rest[0] == "--json" then JsonItem
            else if rest[0] == "--proto" then ProtoItem(rest[1])
            else StateItem(rest[1]);
    assert rest == Words(item) + rest[|Words(item)|..];
    ListingStep(l, item, rest[|Words(item)|..]);
  }

  lemma ConnectionsIsListing(rest: seq<string>)
    ensures Parse(["connections"] + rest) == ParseListingCommand(DEFAULTS, Connections, rest)
  {
    assert (["connections"] + rest)[1..] == rest;
    if rest == [] {
      assert ["connections"] + rest == ["connections"];
    }
  }

  /** `connections` accepts exactly the lists of good options in which no kind repeats. */
  lemma ConnectionsGrammar(rest: seq<string>)
    ensures Parse(["connections"] + rest).mode != Rejected <==>
            exists items :: AllGood(items) && AtMostOneEach(items) && rest == Flatten(items)
  {
    ConnectionsIsListing(rest);
    if ListingOptions(NO_LISTING, true, rest).Fine? {
      var items := AcceptedIsItems(NO_LISTING, rest);
      ItemsApplied(NO_LISTING, items);
      ItemsAccepted(NO_LISTING, items);
    }
    if items :| AllGood(items) && AtMostOneEach(items) && rest == Flatten(items) {
      ItemsApplied(NO_LISTING, items);
      ItemsAccepted(NO_LISTING, items);
    }
  }

  /** The order of the options of `connections` does not matter. */
  lemma ConnectionsAnyOrder(items: seq<Item>, other: seq<Item>)
    requires AllGood(items) && AtMostOneEach(items) && multiset(items) == multiset(other)
    ensures Parse(["connections"] + Flatten(items)) == Parse(["connections"] + Flatten(other))
  {
    ConnectionsIsListing(Flatten(items));
    ConnectionsIsListing(Flatten(other));
    SameElements(items, other);
    KindsOnce(items, other);
    ItemsApplied(NO_LISTING, items);
    ItemsApplied(NO_LISTING, other);
    ItemsResult(NO_LISTING, items);
    ItemsResult(NO_LISTING, other);
    SameResult(ApplyAll(NO_LISTING, items).value, ApplyAll(NO_LISTING, other).value, NO_LISTING, items, other);
  }

  /** A repeated kind of option is rejected, whatever stands between. */
  lemma ConnectionsDuplicates(items: seq<Item>)
    requires AllGood(items) && !AtMostOneEach(items)
    ensures Parse(["connections"] + Flatten(items)).mode == Rejected
  {
    ConnectionsIsListing(Flatten(items));
    ItemsApplied(NO_LISTING, items);
    ItemsAccepted(NO_LISTING, items);
  }

  lemma SameElements(items: seq<Item>, other: seq<Item>)
    requires AllGood(items) && multiset(items) == multiset(other)
    ensures AllGood(other) && forall x :: x in items <==> x in other
  {
    forall x
      ensures x in items <==> x in other
    {
      assert x in multiset(items) <==> x in multiset(other);
    }
    forall i | 0 <= i < |other|
      ensures IsGood(other[i])
    {
      assert other[i] in other;
    }
  }

  lemma KindsOnce(items: seq<Item>, other: seq<Item>)
    requires AtMostOneEach(items) && multiset(items) == multiset(other)
    ensures AtMostOneEach(other)
  {
    forall i, j | 0 <= i < j < |other|
      ensures !SameKind(other[i], other[j])
    {
      TwoPlaces(other, i, j);
      DifferentKinds(items, other[i], other[j]);
    }
  }

  lemma TwoPlaces(items: seq<Item>, i: nat, j: nat)
    requires i < j < |items|
    ensures items[i] in multiset(items) && items[j] in multiset(items) - multiset{items[i]}
  {
    var rest := items[..i] + items[i + 1..];
    assert items == items[..i] + [items[i]] + items[i + 1..];
    assert rest[j - 1] == items[j];
    assert multiset(rest) == multiset(items) - multiset{items[i]};
  }

  lemma DifferentKinds(items: seq<Item>, x: Item, y: Item)
    requires AtMostOneEach(items) && x in multiset(items) && y in multiset(items) - multiset{x}
    ensures !SameKind(x, y)
  {
    var k := Without(items, x);
    var rest := items[..k] + items[k + 1..];
    var m :| 0 <= m < |rest| && rest[m] == y;
    assert rest[m] == items[if m < k then m else m + 1];
  }

  lemma Without(items: seq<Item>, x: Item) returns (k: nat)
    requires x in multiset(items)
    ensures k < |items| && items[k] == x
    ensures multiset(items[..k] + items[k + 1..]) == multiset(items) - multiset{x}
  {
    k :| 0 <= k < |items| && items[k] == x;
    assert items == items[..k] + [x] + items[k + 1..];
  }

  // ---------------------------------------------------------------- confirmation and targets

  /** The arguments behind a profile. */
  function Body(args: seq<string>): seq<string> {
    if |args| >= 2 && args[0] == "--profile" then args[2..] else args
  }

  ghost predicate AllYes(tail: seq<string>) {
    forall i :: 0 <= i < |tail| ==> IsYes(tail[i])
  }

  lemma {:induction false} ConfirmationsExactly(confirmed: bool, tail: seq<string>)
    ensures Confirmations(confirmed, tail).Fine? <==> AllYes(tail)
    ensures AllYes(tail) ==> Confirmations(confirmed, tail).value == (confirmed || tail != [])
    decreases |tail|
  {
    if tail != [] && IsYes(tail[0]) {
      ConfirmationsExactly(true, tail[1..]);
      assert AllYes(tail[1..]) ==> AllYes(tail) by {
        assert forall i :: 1 <= i < |tail| ==> tail[i] == tail[1..][i - 1];
      }
    }
  }

  /** Only JSON can stand behind a command that takes no filters. */
  lemma OnlyJson(rest: seq<string>)
    ensures ListingOptions(NO_LISTING, false, rest).Fine? <==> rest == [] || rest == ["--json"]
  {
    if rest != [] && rest[0] == "--json" {
      var l := NO_LISTING.(json := true);
      assert ListingOptions(l, false, rest[1..]).Fine? <==> rest[1..] == [];
      assert rest == ["--json"] + rest[1..];
    }
  }

  predicate IsKill(body: seq<string>) {
    |body| >= 2 && body[0] == "kill"
  }

  /** A drop with a full and valid target. */
  predicate IsFullDrop(body: seq<string>) {
    && |body| >= 5 && body[0] == "drop" && (body[1] == "connection" || body[1] == "socket")
    && ProtoName(body[2]).Some?
  }

  /** The options before the body is read. */
  function Start(args: seq<string>): (o: Options)
    ensures o.listing == NO_LISTING && o.target == NO_TARGET && !o.confirmed && o.mode == Tui
  {
    if |args| >= 2 && args[0] == "--profile" then WithProfile(DEFAULTS, args[1]) else DEFAULTS
  }

  lemma BodyOf(args: seq<string>)
    ensures Body(args) == [] ==> Parse(args) == Start(args)
    ensures Body(args) != [] && args != ["--profile"] ==> Parse(args) == ParseBody(Start(args), Body(args))
    ensures args == ["--profile"] ==> Parse(args).mode == Rejected
  {
    assert |args| == 1 && args[0] == "--profile" ==> args == ["--profile"];
  }

  /** A kill is accepted exactly when only confirmations stand behind its pid. */
  lemma KillAccepted(args: seq<string>)
    requires IsKill(Body(args))
    ensures var r, body := Parse(args), Body(args);
            if AllYes(body[2..]) then
              r.mode == Kill && r.target == NO_TARGET.(hasPid := true, pid := Fit(body[1], 16))
              && (r.confirmed <==> |body| > 2)
            else r.mode == Rejected
  {
    BodyOf(args);
    ConfirmationsExactly(false, Body(args)[2..]);
  }

  lemma FullDropBody(o: Options, body: seq<string>)
    requires |body| >= 5 && body[0] == "drop" && !o.confirmed
    ensures var r := ParseBody(o, body);
            if IsFullDrop(body) && AllYes(body[5..]) then
              && r.mode == Drop
              && r.target == o.target.(hasDrop := true, kind := body[1], proto := ProtoName(body[2]).value,
                                       local := Fit(body[3], 64), remote := Fit(body[4], 64))
              && (r.confirmed <==> |body| > 5)
            else r.mode == Rejected
  {
    ConfirmationsExactly(false, body[5..]);
    KindFits(body[1]);
  }

  lemma KindFits(word: string)
    ensures Fit(word, 16) == "connection" <==> word == "connection"
    ensures Fit(word, 16) == "socket" <==> word == "socket"
  {
    assert |word| >= 16 ==> |Fit(word, 16)| == 15;
  }

  lemma ShortDropBody(o: Options, body: seq<string>)
    requires 1 <= |body| < 5 && body[0] == "drop" && o.listing == NO_LISTING && o.target == NO_TARGET && !o.confirmed
    ensures var r := ParseBody(o, body);
            if body == ["drop", "--json"] then r.mode == Drop && r.target == NO_TARGET && r.listing.json && !r.confirmed
            else r.mode == Rejected
  {
    if |body| > 1 {
      OnlyJson(body[1..]);
      assert body == ["drop"] + body[1..];
    }
  }

  /** An accepted drop has a full and valid target, except for exactly `drop --json`, which has none. */
  lemma DropAccepted(args: seq<string>)
    requires Body(args) != [] && Body(args)[0] == "drop"
    ensures var r, body := Parse(args), Body(args);
            && (r.mode == Drop <==> (IsFullDrop(body) && AllYes(body[5..])) || body == ["drop", "--json"])
            && (r.mode != Drop ==> r.mode == Rejected)
            && (r.mode == Drop ==> (r.target.hasDrop <==> body != ["drop", "--json"]))
            && (r.mode == Drop && r.target.hasDrop ==>
                  r.target == NO_TARGET.(hasDrop := true, kind := body[1], proto := ProtoName(body[2]).value,
                                         local := Fit(body[3], 64), remote := Fit(body[4], 64))
                  && (r.confirmed <==> |body| > 5))
            && (r.mode == Drop && !r.target.hasDrop ==> !r.confirmed)
  {
    BodyOf(args);
    var body := Body(args);
    var o := Start(args);
    if |body| >= 5 {
      FullDropBody(o, body);
    } else {
      ShortDropBody(o, body);
    }
  }

  lemma OtherBody(o: Options, body: seq<string>)
    requires body != [] && !o.confirmed && !IsKill(body) && body[0] != "drop"
    ensures !ParseBody(o, body).confirmed && ParseBody(o, body).mode != Drop && ParseBody(o, body).mode != Kill
  {
  }

  /** An accepted command line is confirmed exactly when it is a kill or a drop with a target and a non-empty
      tail of confirmations. */
  lemma ConfirmedExactly(args: seq<string>)
    requires Parse(args).mode != Rejected
    ensures var body := Body(args);
            Parse(args).confirmed <==> (IsKill(body) && |body| > 2 && AllYes(body[2..])) ||
                                       (IsFullDrop(body) && |body| > 5 && AllYes(body[5..]))
  {
    BodyOf(args);
    var body := Body(args);
    if body != [] {
      if IsKill(body) {
        KillAccepted(args);
      } else if body[0] == "drop" {
        DropAccepted(args);
      } else {
        OtherBody(Start(args), body);
      }
    }
  }
}
