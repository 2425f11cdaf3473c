/** Cyclic cursors: the focus of the connection and bandwidth panels and the selected support view
    (`trfx_connections`, `trfx_threads`, `trfx_support_views`). */
module Cursors {
  import opened History

  // ---------------------------------------------------------------- focus

  /** One step of a focus; a step beyond an end goes to the other end. */
  function Moved(index: int, delta: int, visible: int): int {
    if visible <= 0 then index
    else if index + delta < 0 then visible - 1
    else if index + delta >= visible then 0
    else index + delta
  }

  /** A focus after an update: kept while it is visible, otherwise the last row, or 0 when there is none. */
  function Clamped(index: int, visible: int): int {
    if visible <= 0 then 0 else if index >= visible then visible - 1 else index
  }

  /** How many rows of a list are visible. */
  function VisibleOf(limit: Option<int>, count: int): int {
    if limit.Some? && count >= limit.value then limit.value else count
  }

  /** A focus within what is visible; 0 when nothing is. */
  ghost predicate InView(index: int, visible: int) {
    if visible <= 0 then index == 0 else 0 <= index < visible
  }

  /** The focus of a list. The bandwidth panel shows at most three rows, the connection panel has no limit. */
  class Focus {
    const limit: Option<int>
    var count: int
    var index: int

    function Visible(): int
      reads this
    {
      VisibleOf(limit, count)
    }

    ghost predicate Valid()
      reads this
    {
      InView(index, Visible())
    }

    constructor (limit: Option<int>)
      ensures Valid() && this.limit == limit && count == 0
    {
      this.limit := limit;
      count, index := 0, 0;
    }

    /** A new list, or a refresh of the same one: the focus stays where it is, or moves to the last row. */
    method Update(newCount: Option<int>)
      requires Valid()
      modifies this
      ensures Valid() && count == (if newCount.Some? then newCount.value else old(count))
      ensures index == Clamped(old(index), Visible())
    {
      if newCount.Some? {
        count := newCount.value;
      }
      var visible := Visible();
      if visible <= 0 {
        index := 0;
      } else if index >= visible {
        index := visible - 1;
      }
    }

    method MoveFocus(delta: int)
      requires Valid()
      modifies this`index
      ensures Valid() && index == Moved(old(index), delta, Visible())
    {
      var visible := Visible();
      if visible > 0 {
        index := index + delta;
        if index < 0 {
          index := visible - 1;
        } else if index >= visible {
          index := 0;
        }
      }
    }
  }

  datatype FocusEvent = Updated(count: int) | Refreshed | Stepped(delta: int)

  datatype FocusState = FocusState(count: int, index: int)

  /** The list's size and the focus after a run of updates and moves. */
  function AfterEvents(limit: Option<int>, events: seq<FocusEvent>): FocusState {
    if events == [] then FocusState(0, 0)
    else
      var before := AfterEvents(limit, events[..|events| - 1]);
      match events[|events| - 1]
      case Updated(count) => FocusState(count, Clamped(before.index, VisibleOf(limit, count)))
      case Refreshed => FocusState(before.count, Clamped(before.index, VisibleOf(limit, before.count)))
      case Stepped(delta) => FocusState(before.count, Moved(before.index, delta, VisibleOf(limit, before.count)))
  }

  /** Any mix of updates and moves keeps the focus within the visible rows. */
  lemma {:induction false} FocusStaysInView(limit: Option<int>, events: seq<FocusEvent>)
    ensures InView(AfterEvents(limit, events).index, VisibleOf(limit, AfterEvents(limit, events).count))
  {
    if events != [] {
      FocusStaysInView(limit, events[..|events| - 1]);
    }
  }

  /** The panel's calls, one after the other, lead exactly there. */
  method RunFocus(limit: Option<int>, events: seq<FocusEvent>) returns (index: int, visible: int)
    ensures index == AfterEvents(limit, events).index
    ensures visible == VisibleOf(limit, AfterEvents(limit, events).count) && InView(index, visible)
  {
    var focus := new Focus(limit);
    for i := 0 to |events|
      invariant focus.Valid() && fresh(focus) && focus.limit == limit
      invariant FocusState(focus.count, focus.index) == AfterEvents(limit, events[..i])
    {
      assert events[..i + 1][..i] == events[..i];
      match events[i]
      case Updated(count) => focus.Update(Some(count));
      case Refreshed => focus.Update(None);
      case Stepped(delta) => focus.MoveFocus(delta);
    }
    assert events[..|events|] == events;
    index, visible := focus.index, focus.Visible();
  }

  // ---------------------------------------------------------------- steps on a circle

  function MovedTimes(index: int, n: nat, delta: int, visible: int): int {
    if n == 0 then index else Moved(MovedTimes(index, n - 1, delta, visible), delta, visible)
  }

  /** Remainders are unique. */
  lemma ModIs(x: int, d: int, q: int, m: int)
    requires d > 0 && 0 <= m < d && x == q * d + m
    ensures x % d == m
  {
    Distribute(q, x / d, d);
    if q > x / d {
      AtLeastOnce(q - x / d, d);
    }
    if q < x / d {
      Distribute(x / d, q, d);
      AtLeastOnce(x / d - q, d);
    }
  }

  lemma Distribute(a: int, b: int, d: int)
    ensures (a - b) * d == a * d - b * d
  {
  }

  lemma AtLeastOnce(k: int, d: int)
    requires k >= 1 && d > 0
    ensures k * d >= d
  {
  }

  /** One more: the next remainder, or 0 behind the last one. */
  lemma ModNext(x: int, d: int, m: int)
    requires d > 0 && x % d == m
    ensures (x + 1) % d == if m + 1 < d then m + 1 else 0
  {
    var q := x / d;
    if m + 1 < d {
      ModIs(x + 1, d, q, m + 1);
    } else {
      Distribute(q + 1, 1, d);
      ModIs(x + 1, d, q + 1, 0);
    }
  }

  /** One less: the remainder before, or the last one before 0. */
  lemma ModPrevious(x: int, d: int, m: int)
    requires d > 0 && x % d == m
    ensures (x - 1) % d == if m > 0 then m - 1 else d - 1
  {
    var q := x / d;
    if m > 0 {
      ModIs(x - 1, d, q, m - 1);
    } else {
      Distribute(q, 1, d);
      ModIs(x - 1, d, q - 1, d - 1);
    }
  }

  lemma Within(x: int, d: int)
    requires 0 <= x < d
    ensures x % d == x
  {
    ModIs(x, d, 0, x);
  }

  /** n single steps forward at a fixed size are one step of n, modulo the size. */
  lemma {:induction false} StepsForward(index: int, n: nat, visible: int)
    requires visible > 0 && 0 <= index < visible
    ensures MovedTimes(index, n, 1, visible) == (index + n) % visible
  {
    if n == 0 {
      Within(index, visible);
    } else {
      var before := MovedTimes(index, n - 1, 1, visible);
      StepsForward(index, n - 1, visible);
      ModNext(index + (n - 1), visible, before);
      assert index + (n - 1) + 1 == index + n;
      InRange(index + (n - 1), visible);
    }
  }

  lemma InRange(x: int, d: int)
    requires d > 0
    ensures 0 <= x % d < d
  {
  }

  lemma {:induction false} StepsBack(index: int, n: nat, visible: int)
    requires visible > 0 && 0 <= index < visible
    ensures MovedTimes(index, n, -1, visible) == (index - n) % visible
  {
    if n == 0 {
      Within(index, visible);
    } else {
      var before := MovedTimes(index, n - 1, -1, visible);
      StepsBack(index, n - 1, visible);
      ModPrevious(index - (n - 1), visible, before);
      assert index - (n - 1) - 1 == index - n;
      InRange(index - (n - 1), visible);
    }
  }

  /** How many rows a step goes beyond the row behind the end that it leaves by. */
  function Overshoot(target: int, visible: int): int {
    if target < 0 then -1 - target else if target >= visible then target - visible else 0
  }

  lemma ShiftedMod(x: int, d: int)
    requires d > 0
    ensures (x - d) % d == x % d
  {
    Distribute(x / d, 1, d);
    ModIs(x - d, d, x / d - 1, x % d);
  }

  lemma MirroredMod(x: int, d: int)
    requires d > 0
    ensures (-1 - x) % d == d - 1 - x % d
  {
    Distribute(-1, x / d, d);
    ModIs(-1 - x, d, -1 - x / d, d - 1 - x % d);
  }

  /** A longer step goes round as on a circle exactly when its overshoot is a whole number of rounds. */
  lemma LongStep(index: int, delta: int, visible: int)
    requires visible > 0 && 0 <= index < visible
    ensures Moved(index, delta, visible) == (index + delta) % visible <==> Overshoot(index + delta, visible) % visible == 0
  {
    var target := index + delta;
    if target < 0 {
      MirroredMod(target, visible);
    } else if target >= visible {
      ShiftedMod(target, visible);
    } else {
      Within(target, visible);
      Within(0, visible);
    }
  }

  /** So a step of at most the size does exactly when it goes no further than one row past an end. */
  lemma StepWithinSize(index: int, delta: int, visible: int)
    requires visible > 0 && 0 <= index < visible && -visible <= delta <= visible
    ensures Moved(index, delta, visible) == (index + delta) % visible <==> -1 <= index + delta <= visible
  {
    LongStep(index, delta, visible);
    Within(Overshoot(index + delta, visible), visible);
  }

  // ---------------------------------------------------------------- support views

  const VIEWS: nat := 8
  const DEFAULT_VIEW: nat := 0

  /** The view a number of steps away, on a circle. */
  function ViewAfter(current: nat, delta: int): (r: nat)
    ensures r < VIEWS
  {
    ((if current >= VIEWS then DEFAULT_VIEW else current) + delta) % VIEWS
  }

  lemma ViewShift(x: int)
    ensures (x + VIEWS) % VIEWS == x % VIEWS
  {
  }

  /** `trfx_support_view_next_index`: its two loops end and compute the Euclidean remainder. */
  method NextIndex(current: nat, delta: int) returns (r: nat)
    ensures r == ViewAfter(current, delta)
  {
    var start := current;
    if start >= VIEWS {
      start := DEFAULT_VIEW;
    }
    var next: int := start + delta;
    while next < 0
      invariant next < VIEWS || next == start + delta
      invariant next % VIEWS == (start + delta) % VIEWS
      decreases -next
    {
      ViewShift(next);
      next := next + VIEWS;
    }
    while next >= VIEWS
      invariant next >= 0 && next % VIEWS == (start + delta) % VIEWS
      decreases next
    {
      ViewShift(next - VIEWS);
      next := next - VIEWS;
    }
    r := next;
  }

  /** Steps add up. */
  lemma ViewStepsAdd(current: nat, a: int, b: int)
    ensures ViewAfter(ViewAfter(current, a), b) == ViewAfter(current, a + b)
    ensures ViewAfter(ViewAfter(current, a), -a) == if current < VIEWS then current else DEFAULT_VIEW
  {
    var start := if current < VIEWS then current else DEFAULT_VIEW;
    AddMod(start + a, b, VIEWS);
    AddMod(start + a, -a, VIEWS);
    Within(start, VIEWS);
  }

  lemma AddMod(x: int, b: int, d: int)
    requires d > 0
    ensures (x % d + b) % d == (x + b) % d
  {
    var m := x % d + b;
    Distribute(x / d, -(m / d), d);
    ModIs(x + b, d, x / d + m / d, m % d);
  }

  datatype ViewEvent = Select(index: nat) | Cycle(delta: int) | AskRefresh | TakeRefresh

  /** A refresh was asked for, or the selection touched, since the last take. */
  ghost predicate RefreshDue(e: seq<ViewEvent>) {
    exists i :: 0 <= i < |e| && e[i] != TakeRefresh && forall j :: i < j < |e| ==> e[j] != TakeRefresh
  }

  lemma RefreshDueAppend(e: seq<ViewEvent>, x: ViewEvent)
    ensures RefreshDue(e + [x]) <==> x != TakeRefresh
  {
    assert (e + [x])[|e|] == x;
  }

  /** The steps since the last selection, from the selected view on. */
  function Selected(e: seq<ViewEvent>): (r: nat)
    ensures r < VIEWS
  {
    if e == [] then DEFAULT_VIEW
    else
      match e[|e| - 1]
      case Select(index) => ViewAfter(index, 0)
      case Cycle(delta) => ViewAfter(Selected(e[..|e| - 1]), delta)
      case AskRefresh | TakeRefresh => Selected(e[..|e| - 1])
  }

  class SupportViews {
    var selected: nat
    var refreshRequested: bool
    ghost var events: seq<ViewEvent>

    ghost predicate Valid()
      reads this
    {
      selected == Selected(events) && (refreshRequested <==> RefreshDue(events))
    }

    constructor ()
      ensures Valid() && events == []
    {
      selected, refreshRequested, events := 0, false, [];
    }

    method SetSelectedIndex(index: nat)
      requires Valid()
      modifies this
      ensures Valid() && events == old(events) + [Select(index)]
    {
      RefreshDueAppend(events, Select(index));
      selected := NextIndex(index, 0);
      refreshRequested := true;
      events := events + [Select(index)];
    }

    method CycleSelectedIndex(delta: int) returns (next: nat)
      requires Valid()
      modifies this
      ensures Valid() && events == old(events) + [Cycle(delta)] && next == selected
    {
      RefreshDueAppend(events, Cycle(delta));
      next := NextIndex(selected, delta);
      selected := next;
      refreshRequested := true;
      events := events + [Cycle(delta)];
      assert events[..|events| - 1] == old(events);
    }

    method RequestRefresh()
      requires Valid()
      modifies this
      ensures Valid() && events == old(events) + [AskRefresh]
    {
      RefreshDueAppend(events, AskRefresh);
      refreshRequested := true;
      events := events + [AskRefresh];
      assert events[..|events| - 1] == old(events);
    }

    /** True exactly when something asked for a refresh since the last time. */
    method ConsumeRefreshRequest() returns (requested: bool)
      requires Valid()
      modifies this
      ensures Valid() && events == old(events) + [TakeRefresh]
      ensures requested <==> RefreshDue(old(events))
    {
      RefreshDueAppend(events, TakeRefresh);
      requested := refreshRequested;
      refreshRequested := false;
      events := events + [TakeRefresh];
      assert events[..|events| - 1] == old(events);
    }
  }

  /** The total of the steps in a run of cycling. */
  function TotalSteps(e: seq<ViewEvent>): int {
    if e == [] then 0
    else TotalSteps(e[..|e| - 1]) + if e[|e| - 1].Cycle? then e[|e| - 1].delta else 0
  }

  /** After any run without a new selection, the selected view is the steps' total away, on the circle. */
  lemma {:induction false} SelectedIsTotal(e: seq<ViewEvent>, more: seq<ViewEvent>)
    requires forall i :: 0 <= i < |more| ==> !more[i].Select?
    ensures Selected(e + more) == ViewAfter(Selected(e), TotalSteps(more))
  {
    if more == [] {
      assert e + more == e;
    } else {
      var front := more[..|more| - 1];
      assert (e + more)[..|e + more| - 1] == e + front;
      SelectedIsTotal(e, front);
      var last := more[|more| - 1];
      if last.Cycle? {
        ViewStepsAdd(Selected(e), TotalSteps(front), last.delta);
      }
    }
  }
}
