/** The shared runtime flags and the loops that wait on them (`trfx_runtime`, `trfx_threads`). */
module Runtime {

  const STATIC_MODULES: nat := 4

  /** One locked operation of some thread. */
  datatype Event = Reset | SetReady(on: bool) | SetPaused(on: bool) | RequestStop | RequestRefresh | Consume(pane: nat)

  /** A refresh was requested since the later of the pane's last consume and the last reset. */
  ghost predicate Pending(e: seq<Event>, pane: nat) {
    exists i :: 0 <= i < |e| && e[i] == RequestRefresh &&
                forall j :: i < j < |e| ==> e[j] != Reset && e[j] != Consume(pane)
  }

  /** A stop was requested since the last reset. */
  ghost predicate Stopped(e: seq<Event>) {
    exists i :: 0 <= i < |e| && e[i] == RequestStop && forall j :: i < j < |e| ==> e[j] != Reset
  }

  /** The last word about readiness since the last reset was yes. */
  ghost predicate ReadySet(e: seq<Event>) {
    exists i :: 0 <= i < |e| && e[i] == SetReady(true) && forall j :: i < j < |e| ==> e[j] != Reset && e[j] != SetReady(false)
  }

  ghost predicate PausedSet(e: seq<Event>) {
    exists i :: 0 <= i < |e| && e[i] == SetPaused(true) && forall j :: i < j < |e| ==> e[j] != Reset && e[j] != SetPaused(false)
  }

  lemma PendingAppend(e: seq<Event>, x: Event, pane: nat)
    ensures Pending(e + [x], pane) <==> x == RequestRefresh || (x != Reset && x != Consume(pane) && Pending(e, pane))
  {
    var f := e + [x];
    if x == RequestRefresh {
      assert f[|e|] == RequestRefresh;
    }
    if x != Reset && x != Consume(pane) && Pending(e, pane) {
      var i :| 0 <= i < |e| && e[i] == RequestRefresh && forall j :: i < j < |e| ==> e[j] != Reset && e[j] != Consume(pane);
      assert f[i] == RequestRefresh;
    }
    if x != RequestRefresh && Pending(f, pane) {
      var i :| 0 <= i < |f| && f[i] == RequestRefresh && forall j :: i < j < |f| ==> f[j] != Reset && f[j] != Consume(pane);
      assert e[i] == RequestRefresh && f[|e|] == x;
      assert forall j :: i < j < |e| ==> e[j] == f[j];
    }
  }

  lemma StoppedAppend(e: seq<Event>, x: Event)
    ensures Stopped(e + [x]) <==> x == RequestStop || (x != Reset && Stopped(e))
  {
    var f := e + [x];
    if x == RequestStop {
      assert f[|e|] == RequestStop;
    }
    if x != Reset && Stopped(e) {
      var i :| 0 <= i < |e| && e[i] == RequestStop && forall j :: i < j < |e| ==> e[j] != Reset;
      assert f[i] == RequestStop;
    }
    if x != RequestStop && Stopped(f) {
      var i :| 0 <= i < |f| && f[i] == RequestStop && forall j :: i < j < |f| ==> f[j] != Reset;
      assert e[i] == RequestStop && f[|e|] == x;
      assert forall j :: i < j < |e| ==> e[j] == f[j];
    }
  }

  lemma ReadyAppend(e: seq<Event>, x: Event)
    ensures ReadySet(e + [x]) <==> x == SetReady(true) || (x != Reset && x != SetReady(false) && ReadySet(e))
  {
    var f := e + [x];
    if x == SetReady(true) {
      assert f[|e|] == SetReady(true);
    }
    if x != Reset && x != SetReady(false) && ReadySet(e) {
      var i :| 0 <= i < |e| && e[i] == SetReady(true) && forall j :: i < j < |e| ==> e[j] != Reset && e[j] != SetReady(false);
      assert f[i] == SetReady(true);
    }
    if x != SetReady(true) && ReadySet(f) {
      var i :| 0 <= i < |f| && f[i] == SetReady(true) && forall j :: i < j < |f| ==> f[j] != Reset && f[j] != SetReady(false);
      assert e[i] == SetReady(true) && f[|e|] == x;
      assert forall j :: i < j < |e| ==> e[j] == f[j];
    }
  }

  lemma PausedAppend(e: seq<Event>, x: Event)
    ensures PausedSet(e + [x]) <==> x == SetPaused(true) || (x != Reset && x != SetPaused(false) && PausedSet(e))
  {
    var f := e + [x];
    if x == SetPaused(true) {
      assert f[|e|] == SetPaused(true);
    }
    if x != Reset && x != SetPaused(false) && PausedSet(e) {
      var i :| 0 <= i < |e| && e[i] == SetPaused(true) && forall j :: i < j < |e| ==> e[j] != Reset && e[j] != SetPaused(false);
      assert f[i] == SetPaused(true);
    }
    if x != SetPaused(true) && PausedSet(f) {
      var i :| 0 <= i < |f| && f[i] == SetPaused(true) && forall j :: i < j < |f| ==> f[j] != Reset && f[j] != SetPaused(false);
      assert e[i] == SetPaused(true) && f[|e|] == x;
      assert forall j :: i < j < |e| ==> e[j] == f[j];
    }
  }

  lemma AllAppend(e: seq<Event>, x: Event)
    ensures forall pane :: Pending(e + [x], pane) <==> x == RequestRefresh || (x != Reset && x != Consume(pane) && Pending(e, pane))
    ensures Stopped(e + [x]) <==> x == RequestStop || (x != Reset && Stopped(e))
    ensures ReadySet(e + [x]) <==> x == SetReady(true) || (x != Reset && x != SetReady(false) && ReadySet(e))
    ensures PausedSet(e + [x]) <==> x == SetPaused(true) || (x != Reset && x != SetPaused(false) && PausedSet(e))
  {
    forall pane: nat
      ensures Pending(e + [x], pane) <==> x == RequestRefresh || (x != Reset && x != Consume(pane) && Pending(e, pane))
    {
      PendingAppend(e, x, pane);
    }
    StoppedAppend(e, x);
    ReadyAppend(e, x);
    PausedAppend(e, x);
  }

  /** Without a reset a stop request stays in force. */
  lemma StopLasts(e: seq<Event>, more: seq<Event>)
    requires Stopped(e) && Reset !in more
    ensures Stopped(e + more)
  {
    var f := e + more;
    var i :| 0 <= i < |e| && e[i] == RequestStop && forall j :: i < j < |e| ==> e[j] != Reset;
    assert f[i] == RequestStop;
    forall j | i < j < |f|
      ensures f[j] != Reset
    {
      assert j >= |e| ==> f[j] in more;
    }
  }

  /** The operations that touch the flags; a consume for an index out of range does not. */
  function Effective(steps: seq<Event>): (r: seq<Event>)
    ensures forall x :: x in r ==> x in steps
  {
    if steps == [] then []
    else
      var front, x := Effective(steps[..|steps| - 1]), steps[|steps| - 1];
      if x.Consume? && x.pane >= STATIC_MODULES then front else front + [x]
  }

  /** The flags, with everything that was ever done to them in the order of the lock. */
  class RuntimeState {
    var ready: bool
    var paused: bool
    var stopRequested: bool
    var flags: array<bool>
    ghost var events: seq<Event>

    ghost predicate Valid()
      reads this, flags
    {
      && flags.Length == STATIC_MODULES
      && (forall m :: 0 <= m < STATIC_MODULES ==> (flags[m] <==> Pending(events, m)))
      && (stopRequested <==> Stopped(events))
      && (ready <==> ReadySet(events))
      && (paused <==> PausedSet(events))
    }

    constructor ()
      ensures Valid() && fresh(flags) && events == []
    {
      ready, paused, stopRequested := false, false, false;
      flags := new bool[STATIC_MODULES](_ => false);
      events := [];
    }

    method SetFlags(on: bool)
      requires flags.Length == STATIC_MODULES
      modifies flags
      ensures forall m :: 0 <= m < STATIC_MODULES ==> flags[m] == on
    {
      for i := 0 to STATIC_MODULES
        invariant forall m :: 0 <= m < i ==> flags[m] == on
      {
        flags[i] := on;
      }
    }

    method ResetAll()
      requires Valid()
      modifies this`ready, this`paused, this`stopRequested, this`events, flags
      ensures Valid() && events == old(events) + [Reset]
    {
      AllAppend(events, Reset);
      ready, paused, stopRequested := false, false, false;
      SetFlags(false);
      events := events + [Reset];
    }

    method PutReady(on: bool)
      requires Valid()
      modifies this`ready, this`events
      ensures Valid() && events == old(events) + [SetReady(on)]
    {
      AllAppend(events, SetReady(on));
      ready := on;
      events := events + [SetReady(on)];
    }

    method PutPaused(on: bool)
      requires Valid()
      modifies this`paused, this`events
      ensures Valid() && events == old(events) + [SetPaused(on)]
    {
      AllAppend(events, SetPaused(on));
      paused := on;
      events := events + [SetPaused(on)];
    }

    method Stop()
      requires Valid()
      modifies this`stopRequested, this`events
      ensures Valid() && events == old(events) + [RequestStop]
    {
      AllAppend(events, RequestStop);
      stopRequested := true;
      events := events + [RequestStop];
    }

    method RequestStaticRefreshAll()
      requires Valid()
      modifies this`events, flags
      ensures Valid() && events == old(events) + [RequestRefresh]
    {
      AllAppend(events, RequestRefresh);
      SetFlags(true);
      events := events + [RequestRefresh];
    }

    /** True exactly when a refresh is pending for the pane; an index out of range is ignored. */
    method ConsumeStaticRefresh(index: int) returns (requested: bool)
      requires Valid()
      modifies this`events, flags
      ensures Valid()
      ensures if 0 <= index < STATIC_MODULES
              then events == old(events) + [Consume(index)] && (requested <==> Pending(old(events), index))
              else events == old(events) && !requested
    {
      if index < 0 || index >= STATIC_MODULES {
        return false;
      }
      AllAppend(events, Consume(index));
      requested := flags[index];
      flags[index] := false;
      events := events + [Consume(index)];
    }

    /** What other threads do between two operations of this one. */
    method Others(steps: seq<Event>)
      requires Valid()
      modifies this`ready, this`paused, this`stopRequested, this`events, flags
      ensures Valid() && events == old(events) + Effective(steps)
    {
      for i := 0 to |steps|
        invariant Valid() && events == old(events) + Effective(steps[..i])
      {
        assert steps[..i + 1][..i] == steps[..i];
        match steps[i]
        case Reset => ResetAll();
        case SetReady(on) => PutReady(on);
        case SetPaused(on) => PutPaused(on);
        case RequestStop => Stop();
        case RequestRefresh => RequestStaticRefreshAll();
        case Consume(pane) => var requested := ConsumeStaticRefresh(pane);
      }
      assert steps[..|steps|] == steps;
    }

    /** Look number `i` of a sleeping loop, after what other threads do before it. */
    method Look(i: nat, localStop: nat -> bool, others: nat -> seq<Event>, ghost start: seq<Event>) returns (seen: bool)
      requires Valid() && events == start + Before(others, i)
      modifies this`ready, this`paused, this`stopRequested, this`events, flags
      ensures Valid() && events == start + Before(others, i + 1)
      ensures seen <==> SeesStop(start, others, localStop, i)
    {
      Others(others(i));
      BeforeMore(start, others, i);
      seen := stopRequested || localStop(i);
    }

    /** `trfx_thread_sleep_ms` with steps of 100 and `trfx_dynamic_thread_sleep_ms` with steps of 25 and a stop flag
        of its own. Other threads act before each look at the flags. The loop sleeps `turns` times, each time only
        after a look that saw no stop, and ends when the time is over or its last look saw one; its answer is
        whether a further look sees a stop. */
    method Sleep(milliseconds: int, step: nat, localStop: nat -> bool, others: nat -> seq<Event>)
      returns (stop: bool, slept: int, ghost turns: nat)
      requires Valid() && step > 0
      modifies this`ready, this`paused, this`stopRequested, this`events, flags
      ensures Valid() && events == old(events) + Before(others, turns + 2)
      ensures slept == SleptFor(turns, step, milliseconds) && slept <= Positive(milliseconds)
      ensures NoStopSeen(old(events), others, localStop, turns)
      ensures slept == Positive(milliseconds) || SeesStop(old(events), others, localStop, turns)
      ensures stop <==> SeesStop(old(events), others, localStop, turns + 1)
    {
      slept, turns := 0, 0;
      ghost var start := events;
      assert start + Before(others, 0) == events;
      var k := 0;
      var seen := Look(0, localStop, others, start);
      while !seen && slept < milliseconds
        invariant Valid() && k == turns && events == start + Before(others, turns + 1)
        invariant slept == SleptFor(turns, step, milliseconds) <= Positive(milliseconds)
        invariant NoStopSeen(start, others, localStop, turns)
        invariant seen <==> SeesStop(start, others, localStop, turns)
        decreases milliseconds - slept
      {
        var remaining := milliseconds - slept;
        SleepMore(turns, step, milliseconds);
        NoStopSeenYet(start, others, localStop, turns);
        slept := slept + if remaining < step then remaining else step;
        k := k + 1;
        turns := turns + 1;
        seen := Look(k, localStop, others, start);
      }
      stop := Look(k + 1, localStop, others, start);
    }

    /** The consume after `turns` turns of the waiting loop. */
    method AskOnce(index: int, others: nat -> seq<Event>, ghost start: seq<Event>, turns: nat) returns (requested: bool)
      requires Valid() && events == start + Asked(others, index, turns)
      modifies this`ready, this`paused, this`stopRequested, this`events, flags
      ensures Valid() && events == start + Asked(others, index, turns) + Effective(others(2 * turns + 1)) + Asks(index)
      ensures requested <==> Finds(start, others, index, turns)
    {
      Others(others(2 * turns + 1));
      requested := ConsumeStaticRefresh(index);
    }

    /** One turn of the waiting loop: a consume, and when it finds nothing a sleep; other threads act before the
        consume and before the look at the stop flag that follows. */
    method Turn(index: int, milliseconds: int, others: nat -> seq<Event>, ghost start: seq<Event>, turns: nat, slept: int)
      returns (requested: bool, total: int)
      requires Valid() && AtLook(events, start, others, index, turns)
      requires slept == SleptFor(turns, 25, milliseconds) < milliseconds
      modifies this`ready, this`paused, this`stopRequested, this`events, flags
      ensures Valid() && if requested then total == slept else slept < total == SleptFor(turns + 1, 25, milliseconds) <= milliseconds
      ensures if requested then JustFound(events, start, others, index, turns)
              else AtLook(events, start, others, index, turns + 1)
    {
      total := slept;
      requested := AskOnce(index, others, start, turns);
      if requested {
        return;
      }
      var remaining := milliseconds - slept;
      SleepMore(turns, 25, milliseconds);
      total := slept + if remaining < 25 then remaining else 25;
      Others(others(2 * turns + 2));
      AskedMore(start, others, index, turns);
      NothingFoundYet(start, others, index, turns);
    }

    /** The turns of the waiting loop, up to a consume that finds something, the end of the time, or a stop. */
    method Turns(index: int, milliseconds: int, others: nat -> seq<Event>, ghost start: seq<Event>)
      returns (found: bool, slept: int, turns: nat)
      requires Valid() && events == start + Asked(others, index, 0)
      modifies this`ready, this`paused, this`stopRequested, this`events, flags
      ensures Valid() && slept == SleptFor(turns, 25, milliseconds) <= Positive(milliseconds)
      ensures if found then JustFound(events, start, others, index, turns) else AtLook(events, start, others, index, turns)
      ensures found || slept == Positive(milliseconds) || Stopped(events)
    {
      found, slept, turns := false, 0, 0;
      while !stopRequested && slept < milliseconds
        invariant Valid() && slept == SleptFor(turns, 25, milliseconds) <= Positive(milliseconds)
        invariant AtLook(events, start, others, index, turns)
        decreases milliseconds - slept
      {
        found, slept := Turn(index, milliseconds, others, start, turns, slept);
        if found {
          return;
        }
        turns := turns + 1;
      }
    }

    /** `trfx_wait_for_static_refresh`: other threads act before each look at the stop flag and before each
        consume. After `turns` consumes that found nothing, each followed by a sleep, the last consume is the
        answer; without a finding the loop ends only when the time is over or a stop was seen. */
    method WaitForStaticRefresh(index: int, milliseconds: int, others: nat -> seq<Event>)
      returns (requested: bool, slept: int, turns: nat)
      requires Valid()
      modifies this`ready, this`paused, this`stopRequested, this`events, flags
      ensures Valid() && slept == SleptFor(turns, 25, milliseconds) <= Positive(milliseconds)
      ensures events == old(events) + Asked(others, index, turns) + Effective(others(2 * turns + 1)) + Asks(index)
      ensures requested <==> Finds(old(events), others, index, turns)
      ensures NothingFound(old(events), others, index, turns)
      ensures requested || slept == Positive(milliseconds) || Stopped(old(events) + Asked(others, index, turns))
    {
      ghost var start := events;
      Others(others(0));
      requested, slept, turns := Turns(index, milliseconds, others, start);
      if requested {
        return;
      }
      requested := AskOnce(index, others, start, turns);
    }
  }

  // ---------------------------------------------------------------- what the waiting loops do

  function Positive(milliseconds: int): int {
    if milliseconds > 0 then milliseconds else 0
  }

  /** The time slept after some turns: full steps, and a shorter last one. */
  function SleptFor(turns: nat, step: nat, milliseconds: int): int {
    if turns == 0 then 0
    else
      var before := SleptFor(turns - 1, step, milliseconds);
      before + if milliseconds - before < step then milliseconds - before else step
  }

  lemma SleepMore(turns: nat, step: nat, milliseconds: int)
    ensures SleptFor(turns + 1, step, milliseconds) ==
            SleptFor(turns, step, milliseconds) +
            if milliseconds - SleptFor(turns, step, milliseconds) < step
            then milliseconds - SleptFor(turns, step, milliseconds) else step
  {
  }

  /** What other threads do before the first `n` looks. */
  function Before(others: nat -> seq<Event>, n: nat): seq<Event> {
    if n == 0 then [] else Before(others, n - 1) + Effective(others(n - 1))
  }

  lemma BeforeMore(start: seq<Event>, others: nat -> seq<Event>, n: nat)
    ensures start + Before(others, n) + Effective(others(n)) == start + Before(others, n + 1)
    ensures Before(others, 0) == []
  {
  }

  /** Look number `i` sees a stop: the global one in force, or the worker's own flag up. */
  ghost predicate SeesStop(start: seq<Event>, others: nat -> seq<Event>, localStop: nat -> bool, i: nat) {
    Stopped(start + Before(others, i + 1)) || localStop(i)
  }

  ghost predicate NoStopSeen(start: seq<Event>, others: nat -> seq<Event>, localStop: nat -> bool, turns: nat) {
    forall i :: 0 <= i < turns ==> !SeesStop(start, others, localStop, i)
  }

  lemma NoStopSeenYet(start: seq<Event>, others: nat -> seq<Event>, localStop: nat -> bool, turns: nat)
    requires NoStopSeen(start, others, localStop, turns) && !SeesStop(start, others, localStop, turns)
    ensures NoStopSeen(start, others, localStop, turns + 1)
  {
  }

  /** The consume of a pane; for an index out of range nothing happens. */
  function Asks(index: int): seq<Event> {
    if 0 <= index < STATIC_MODULES then [Consume(index)] else []
  }

  /** All events up to the look at the stop flag after `turns` turns of the waiting loop. */
  function Asked(others: nat -> seq<Event>, index: int, turns: nat): seq<Event> {
    if turns == 0 then Effective(others(0))
    else Asked(others, index, turns - 1) + Effective(others(2 * turns - 1)) + Asks(index) + Effective(others(2 * turns))
  }

  lemma AskedMore(start: seq<Event>, others: nat -> seq<Event>, index: int, turns: nat)
    ensures start + Asked(others, index, turns) + Effective(others(2 * turns + 1)) + Asks(index) + Effective(others(2 * turns + 2))
            == start + Asked(others, index, turns + 1)
  {
    assert 2 * (turns + 1) - 1 == 2 * turns + 1 && 2 * (turns + 1) == 2 * turns + 2;
    Regroup(start, Asked(others, index, turns), Effective(others(2 * turns + 1)), Asks(index),
            Effective(others(2 * turns + 2)));
  }

  lemma Regroup(start: seq<Event>, a: seq<Event>, b: seq<Event>, c: seq<Event>, d: seq<Event>)
    ensures start + a + b + c + d == start + (a + b + c + d)
  {
  }

  /** The consume after `turns` turns finds a pending refresh. */
  ghost predicate Finds(start: seq<Event>, others: nat -> seq<Event>, index: int, turns: nat) {
    0 <= index < STATIC_MODULES &&
    Pending(start + Asked(others, index, turns) + Effective(others(2 * turns + 1)), index)
  }

  ghost predicate NothingFound(start: seq<Event>, others: nat -> seq<Event>, index: int, turns: nat) {
    forall i :: 0 <= i < turns ==> !Finds(start, others, index, i)
  }

  /** The history at the look at the stop flag after turns that found nothing. */
  ghost predicate AtLook(e: seq<Event>, start: seq<Event>, others: nat -> seq<Event>, index: int, turns: nat) {
    e == start + Asked(others, index, turns) && NothingFound(start, others, index, turns)
  }

  /** The history after the consume that found something. */
  ghost predicate JustFound(e: seq<Event>, start: seq<Event>, others: nat -> seq<Event>, index: int, turns: nat) {
    && e == start + Asked(others, index, turns) + Effective(others(2 * turns + 1)) + Asks(index)
    && NothingFound(start, others, index, turns) && Finds(start, others, index, turns)
  }

  lemma NothingFoundYet(start: seq<Event>, others: nat -> seq<Event>, index: int, turns: nat)
    requires NothingFound(start, others, index, turns) && !Finds(start, others, index, turns)
    ensures NothingFound(start, others, index, turns + 1)
  {
  }

  /** No other thread resets the flags or consumes this pane's requests. */
  ghost predicate Undisturbed(others: nat -> seq<Event>, index: int) {
    forall k: nat :: Reset !in others(k) && (index < 0 || Consume(index) !in others(k))
  }

  lemma PendingQuiet(e: seq<Event>, more: seq<Event>, pane: nat)
    requires Reset !in more && Consume(pane) !in more
    ensures Pending(e + more, pane) <==> Pending(e, pane) || RequestRefresh in more
    decreases |more|
  {
    if more == [] {
      assert e + more == e;
    } else {
      var front, last := more[..|more| - 1], more[|more| - 1];
      assert more == front + [last] && e + more == (e + front) + [last];
      PendingQuiet(e, front, pane);
      PendingAppend(e + front, last, pane);
    }
  }

  /** After a consume that found nothing, only a new request is pending. */
  lemma QuietTurn(before: seq<Event>, between: seq<Event>, now: seq<Event>, pane: nat)
    requires Reset !in between && Consume(pane) !in between && Reset !in now && Consume(pane) !in now
    requires !Pending(before + between, pane)
    ensures !Pending(before, pane) && RequestRefresh !in between
    ensures Pending(before + between + [Consume(pane)] + now, pane) <==> RequestRefresh in now
  {
    PendingQuiet(before, between, pane);
    PendingAppend(before + between, Consume(pane), pane);
    PendingQuiet(before + between + [Consume(pane)], now, pane);
  }

  lemma AskedHas(others: nat -> seq<Event>, index: int, turns: nat)
    ensures RequestRefresh in Asked(others, index, turns + 1) <==>
            || RequestRefresh in Asked(others, index, turns)
            || RequestRefresh in Effective(others(2 * turns + 1)) || RequestRefresh in Effective(others(2 * turns + 2))
  {
    assert 2 * (turns + 1) - 1 == 2 * turns + 1 && 2 * (turns + 1) == 2 * turns + 2;
  }

  /** After a turn that found nothing, only what was requested behind its consume is pending. */
  lemma QuietAsk(start: seq<Event>, others: nat -> seq<Event>, index: nat, turns: nat)
    requires index < STATIC_MODULES && Undisturbed(others, index) && !Finds(start, others, index, turns)
    ensures !Pending(start + Asked(others, index, turns), index)
    ensures RequestRefresh !in Effective(others(2 * turns + 1))
    ensures Pending(start + Asked(others, index, turns + 1), index) <==>
            RequestRefresh in Effective(others(2 * turns + 2))
  {
    AskedMore(start, others, index, turns);
    QuietTurn(start + Asked(others, index, turns), Effective(others(2 * turns + 1)),
              Effective(others(2 * turns + 2)), index);
  }

  lemma WaitFindsMore(start: seq<Event>, others: nat -> seq<Event>, index: nat, turns: nat)
    requires index < STATIC_MODULES && Undisturbed(others, index) && !Finds(start, others, index, turns)
    requires Pending(start + Asked(others, index, turns), index) <==>
             Pending(start, index) || RequestRefresh in Asked(others, index, turns)
    ensures Pending(start + Asked(others, index, turns + 1), index) <==>
            Pending(start, index) || RequestRefresh in Asked(others, index, turns + 1)
  {
    QuietAsk(start, others, index, turns);
    AskedHas(others, index, turns);
  }

  /** A request that is pending at the start, or made during the wait, is what the wait finds. */
  lemma {:induction false} WaitFinds(start: seq<Event>, others: nat -> seq<Event>, index: nat, turns: nat)
    requires index < STATIC_MODULES && Undisturbed(others, index)
    requires NothingFound(start, others, index, turns)
    ensures Pending(start + Asked(others, index, turns), index) <==>
            Pending(start, index) || RequestRefresh in Asked(others, index, turns)
    decreases turns
  {
    if turns == 0 {
      PendingQuiet(start, Effective(others(0)), index);
    } else {
      WaitFinds(start, others, index, turns - 1);
      WaitFindsMore(start, others, index, turns - 1);
    }
  }

  /** Delivery: when nobody else resets or consumes, the wait answers true exactly when a request was pending when
      it began or is made before its last consume. */
  lemma WaitDelivers(start: seq<Event>, others: nat -> seq<Event>, index: nat, turns: nat)
    requires index < STATIC_MODULES && Undisturbed(others, index)
    requires NothingFound(start, others, index, turns)
    ensures var during := Asked(others, index, turns) + Effective(others(2 * turns + 1));
            Finds(start, others, index, turns) <==> Pending(start, index) || RequestRefresh in during
  {
    WaitFinds(start, others, index, turns);
    PendingQuiet(start + Asked(others, index, turns), Effective(others(2 * turns + 1)), index);
  }

  /** A request pending at the start is found by the first consume, before any sleep. */
  lemma PendingIsFoundAtOnce(start: seq<Event>, others: nat -> seq<Event>, index: nat, turns: nat)
    requires index < STATIC_MODULES && Undisturbed(others, index) && Pending(start, index)
    requires NothingFound(start, others, index, turns)
    ensures turns == 0 && Finds(start, others, index, 0)
  {
    WaitDelivers(start, others, index, 0);
  }

  /** Without a reset, and with a local flag that stays up, the sleeping loop answers no only if it slept the
      whole time. */
  lemma EarlyEndIsStop(start: seq<Event>, others: nat -> seq<Event>, localStop: nat -> bool, turns: nat)
    requires forall k: nat :: Reset !in others(k)
    requires forall k: nat :: localStop(k) ==> localStop(k + 1)
    requires SeesStop(start, others, localStop, turns)
    ensures SeesStop(start, others, localStop, turns + 1)
  {
    if Stopped(start + Before(others, turns + 1)) {
      BeforeMore(start, others, turns + 1);
      StopLasts(start + Before(others, turns + 1), Effective(others(turns + 1)));
    }
  }

  /** A request-all is delivered exactly once to each pane: a second consume with no request between finds
      nothing, whatever else happens in between. */
  lemma DeliveredOnce(e: seq<Event>, pane: nat, between: seq<Event>)
    requires RequestRefresh !in between
    ensures !Pending(e + [Consume(pane)] + between, pane)
  {
    var f := e + [Consume(pane)] + between;
    assert f[|e|] == Consume(pane);
    assert forall i :: |e| < i < |f| ==> f[i] in between;
  }

  /** A request is not lost: it stays pending for a pane until that pane consumes it or a reset. */
  lemma NeverLost(e: seq<Event>, pane: nat, between: seq<Event>)
    requires Reset !in between && Consume(pane) !in between
    ensures Pending(e + [RequestRefresh] + between, pane)
  {
    var f := e + [RequestRefresh] + between;
    assert f[|e|] == RequestRefresh;
    forall j | |e| < j < |f|
      ensures f[j] != Reset && f[j] != Consume(pane)
    {
      assert f[j] in between;
    }
  }
}
