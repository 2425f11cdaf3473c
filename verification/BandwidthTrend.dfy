/** The short bandwidth trend over the newest samples (`trfx_collect_bandwidth_trend`). */
module BandwidthTrend {
  import opened History
  import opened Samples
  import opened InterfaceRates

  const MAX_TREND_POINTS: nat := 4

  datatype TrendPoint = TrendPoint(capturedAt: int, rx: real, tx: real)

  function PointRate(p: TrendPoint, d: Direction): real {
    if d.Rx? then p.rx else p.tx
  }

  /** The time between two samples, taken as one second when the clock did not advance. */
  function Elapsed(previous: Sample, current: Sample): (r: real)
    ensures r > 0.0
  {
    if current.capturedAt > previous.capturedAt then (current.capturedAt - previous.capturedAt) as real else 1.0
  }

  /** The interface rates between two samples. */
  function RatesBetween(previous: Sample, current: Sample): seq<InterfaceRate> {
    Rates(previous.snapshot.interfaces, current.snapshot.interfaces, Elapsed(previous, current))
  }

  function PointBetween(previous: Sample, current: Sample): TrendPoint {
    TrendPoint(current.capturedAt, Total(RatesBetween(previous, current), Rx), Total(RatesBetween(previous, current), Tx))
  }

  /** The newest samples a trend spans: one more than its points. */
  function Window(samples: seq<Sample>): seq<Sample> {
    LastN(samples, MAX_TREND_POINTS + 1)
  }

  /** One point per pair of adjacent samples of the window, in sample order. */
  predicate IsTrendOf(points: seq<TrendPoint>, window: seq<Sample>) {
    && |points| == (if |window| < 2 then 0 else |window| - 1)
    && forall i :: 0 <= i < |points| ==> points[i] == PointBetween(window[i], window[i + 1])
  }

  /** The error and source texts aside, this is the whole collector. */
  method CollectTrend(buffer: SampleBuffer) returns (points: seq<TrendPoint>)
    requires buffer.Valid()
    ensures IsTrendOf(points, Window(LastN(buffer.pushed, SAMPLE_HISTORY)))
    ensures |points| == if |buffer.pushed| < 2 then 0
                        else if |buffer.pushed| <= MAX_TREND_POINTS then |buffer.pushed| - 1 else MAX_TREND_POINTS
  {
    ghost var samples := LastN(buffer.pushed, SAMPLE_HISTORY);
    points := [];
    var sampleCount := buffer.Count();
    if sampleCount < 2 {
      return;
    }
    var pointCount := sampleCount - 1;
    if pointCount > MAX_TREND_POINTS {
      pointCount := MAX_TREND_POINTS;
    }
    var startIndex := sampleCount - pointCount - 1;
    for i := 0 to pointCount
      invariant |points| == i
      invariant forall k :: 0 <= k < i ==> points[k] == PointBetween(samples[startIndex + k], samples[startIndex + k + 1])
    {
      var previous := buffer.At(startIndex + i);
      var current := buffer.At(startIndex + i + 1);
      // The branches for a missing sample are never taken.
      assert previous.Some? && current.Some?;
      var elapsed := (current.value.capturedAt - previous.value.capturedAt) as real;
      if elapsed <= 0.0 {
        elapsed := 1.0;
      }
      assert FitsArrays(current.value.snapshot);
      var rates := CalculateInterfaceRates(
        previous.value.snapshot.interfaces, current.value.snapshot.interfaces, elapsed, MAX_INTERFACES);
      var rx := SumRates(rates.value, Rx);
      var tx := SumRates(rates.value, Tx);
      points := points + [TrendPoint(current.value.capturedAt, rx, tx)];
    }
    forall k | 0 <= k < |points|
      ensures points[k] == PointBetween(Window(samples)[k], Window(samples)[k + 1])
    {
      assert Window(samples)[k] == samples[startIndex + k];
      assert Window(samples)[k + 1] == samples[startIndex + k + 1];
    }
  }

  // ---------------------------------------------------------------- telescoping

  predicate SteadyInterfaces(window: seq<Sample>) {
    forall i :: 0 <= i < |window| - 1 ==>
      SameInterfaces(window[i].snapshot.interfaces, window[i + 1].snapshot.interfaces)
  }

  predicate ClockAdvances(window: seq<Sample>) {
    forall i :: 0 <= i < |window| - 1 ==> window[i].capturedAt < window[i + 1].capturedAt
  }

  predicate NoCounterFell(window: seq<Sample>, d: Direction) {
    forall i :: 0 <= i < |window| - 1 ==>
      NoneFell(window[i].snapshot.interfaces, window[i + 1].snapshot.interfaces, d)
  }

  /** What a constant rate carries over whole seconds: the rate once per second. */
  function Over(rate: real, seconds: int): real {
    if seconds <= 0 then 0.0 else rate + Over(rate, seconds - 1)
  }

  lemma {:induction false} OverIsProduct(rate: real, seconds: nat)
    ensures Over(rate, seconds) == rate * seconds as real
  {
    if seconds == 0 {
      assert seconds as real == 0.0;
    } else {
      OverIsProduct(rate, seconds - 1);
      Distribute(rate, (seconds - 1) as real);
      assert seconds as real == (seconds - 1) as real + 1.0;
    }
  }

  lemma Distribute(x: real, y: real)
    ensures x * (y + 1.0) == x * y + x
  {
  }

  lemma OverQuotient(bytes: int, seconds: nat)
    requires seconds > 0
    ensures Over(bytes as real / seconds as real, seconds) == bytes as real
  {
    OverIsProduct(bytes as real / seconds as real, seconds);
  }

  /** Each point's rate times the seconds up to its sample, summed. */
  function Carried(points: seq<TrendPoint>, window: seq<Sample>, d: Direction): real
    requires |points| < |window| || points == []
  {
    if points == [] then 0.0
    else Over(PointRate(points[0], d), window[1].capturedAt - window[0].capturedAt)
         + Carried(points[1..], window[1..], d)
  }

  /** A point's rate is the bytes counted between its samples over the time between them. */
  lemma PointIsQuotient(previous: Sample, current: Sample, d: Direction)
    ensures PointRate(PointBetween(previous, current), d) ==
            TotalDelta(previous.snapshot.interfaces, current.snapshot.interfaces, d) as real / Elapsed(previous, current)
  {
    TotalRate(previous.snapshot.interfaces, current.snapshot.interfaces, Elapsed(previous, current), d);
  }

  lemma PointCarries(p: TrendPoint, previous: Sample, current: Sample, d: Direction)
    requires p == PointBetween(previous, current) && previous.capturedAt < current.capturedAt
    ensures Over(PointRate(p, d), current.capturedAt - previous.capturedAt) ==
            TotalDelta(previous.snapshot.interfaces, current.snapshot.interfaces, d) as real
  {
    PointIsQuotient(previous, current, d);
    OverQuotient(TotalDelta(previous.snapshot.interfaces, current.snapshot.interfaces, d),
                 current.capturedAt - previous.capturedAt);
  }

  lemma FirstPointCarries(points: seq<TrendPoint>, window: seq<Sample>, d: Direction)
    requires |window| > 1 && IsTrendOf(points, window) && window[0].capturedAt < window[1].capturedAt
    ensures IsTrendOf(points[1..], window[1..])
    ensures Carried(points, window, d) ==
            TotalDelta(window[0].snapshot.interfaces, window[1].snapshot.interfaces, d) as real
            + Carried(points[1..], window[1..], d)
  {
    PointCarries(points[0], window[0], window[1], d);
  }

  lemma TailKeeps(window: seq<Sample>, d: Direction)
    requires |window| > 1 && SteadyInterfaces(window) && ClockAdvances(window)
    ensures SteadyInterfaces(window[1..]) && ClockAdvances(window[1..])
    ensures SameInterfaces(window[0].snapshot.interfaces, window[1].snapshot.interfaces)
    ensures NoCounterFell(window, d) <==>
            NoneFell(window[0].snapshot.interfaces, window[1].snapshot.interfaces, d) && NoCounterFell(window[1..], d)
  {
    assert window == [window[0]] + window[1..];
  }

  function Growth(window: seq<Sample>, d: Direction): int
    requires window != []
  {
    TotalBytes(window[|window| - 1].snapshot.interfaces, d) - TotalBytes(window[0].snapshot.interfaces, d)
  }

  lemma {:induction false} WindowTelescopes(points: seq<TrendPoint>, window: seq<Sample>, d: Direction)
    requires window != [] && IsTrendOf(points, window) && SteadyInterfaces(window) && ClockAdvances(window)
    ensures Carried(points, window, d) >= Growth(window, d) as real
    ensures Carried(points, window, d) == Growth(window, d) as real <==> NoCounterFell(window, d)
  {
    if |window| > 1 {
      TailKeeps(window, d);
      FirstPointCarries(points, window, d);
      WindowTelescopes(points[1..], window[1..], d);
      DeltaVersusGrowth(window[0].snapshot.interfaces, window[1].snapshot.interfaces, d);
      var first := TotalBytes(window[1].snapshot.interfaces, d) - TotalBytes(window[0].snapshot.interfaces, d);
      assert Growth(window, d) == first + Growth(window[1..], d);
    }
  }

  /** The trend of any push history accounts for the traffic of its window: the bytes its points carry
      are at least the growth of the counters, and exactly that when and only when no counter fell. */
  lemma TrendTelescopes(pushed: seq<Sample>, points: seq<TrendPoint>, d: Direction)
    requires pushed != [] && IsTrendOf(points, Window(LastN(pushed, SAMPLE_HISTORY)))
    requires SteadyInterfaces(Window(LastN(pushed, SAMPLE_HISTORY)))
    requires ClockAdvances(Window(LastN(pushed, SAMPLE_HISTORY)))
    ensures Growth(Window(LastN(pushed, SAMPLE_HISTORY)), d) ==
            TotalBytes(pushed[|pushed| - 1].snapshot.interfaces, d)
            - TotalBytes(Window(LastN(pushed, SAMPLE_HISTORY))[0].snapshot.interfaces, d)
    ensures Carried(points, Window(LastN(pushed, SAMPLE_HISTORY)), d) >=
            Growth(Window(LastN(pushed, SAMPLE_HISTORY)), d) as real
    ensures Carried(points, Window(LastN(pushed, SAMPLE_HISTORY)), d) ==
            Growth(Window(LastN(pushed, SAMPLE_HISTORY)), d) as real <==>
            NoCounterFell(Window(LastN(pushed, SAMPLE_HISTORY)), d)
  {
    WindowTelescopes(points, Window(LastN(pushed, SAMPLE_HISTORY)), d);
  }
}
