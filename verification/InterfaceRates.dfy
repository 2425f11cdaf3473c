/** Interface rates from two snapshots of the byte counters (`trfx_calculate_interface_rates`). */
module InterfaceRates {
  import opened History
  import opened CStrings
  import opened Samples

  const NAME_SIZE: nat := 32

  datatype Direction = Rx | Tx

  datatype InterfaceRate = InterfaceRate(name: string, rx: real, tx: real)

  function Bytes(s: InterfaceStat, d: Direction): nat {
    if d.Rx? then s.rx else s.tx
  }

  function RateIn(r: InterfaceRate, d: Direction): real {
    if d.Rx? then r.rx else r.tx
  }

  /** The first statistic with this name. */
  function Find(stats: seq<InterfaceStat>, name: string): (r: Option<InterfaceStat>)
    ensures r.Some? ==> r.value in stats && r.value.name == name
    ensures r.None? <==> forall i :: 0 <= i < |stats| ==> stats[i].name != name
  {
    if stats == [] then None
    else if stats[0].name == name then Some(stats[0])
    else Find(stats[1..], name)
  }

  /** The counter's growth, or 0 when the interface is new or its counter was reset. */
  function Delta(previous: seq<InterfaceStat>, c: InterfaceStat, d: Direction): nat {
    match Find(previous, c.name)
    case None => 0
    case Some(p) => if Bytes(c, d) >= Bytes(p, d) then Bytes(c, d) - Bytes(p, d) else 0
  }

  function Rate(previous: seq<InterfaceStat>, c: InterfaceStat, elapsed: real): InterfaceRate
    requires elapsed > 0.0
  {
    InterfaceRate(Fit(c.name, NAME_SIZE), Delta(previous, c, Rx) as real / elapsed, Delta(previous, c, Tx) as real / elapsed)
  }

  /** One rate per current interface, in order. */
  function Rates(previous: seq<InterfaceStat>, current: seq<InterfaceStat>, elapsed: real): (r: seq<InterfaceRate>)
    requires elapsed > 0.0
    ensures |r| == |current|
    ensures forall i :: 0 <= i < |current| ==> r[i] == Rate(previous, current[i], elapsed)
  {
    seq(|current|, i requires 0 <= i < |current| => Rate(previous, current[i], elapsed))
  }

  method FindStat(stats: seq<InterfaceStat>, name: string) returns (r: Option<InterfaceStat>)
    ensures r == Find(stats, name)
  {
    for i := 0 to |stats|
      invariant Find(stats, name) == Find(stats[i..], name)
    {
      if stats[i].name == name {
        return Some(stats[i]);
      }
    }
    return None;
  }

  /** None for the error return -1: no room for a rate, or no time has passed. */
  method CalculateInterfaceRates(
    previous: seq<InterfaceStat>, current: seq<InterfaceStat>, elapsed: real, maxRates: int)
    returns (rates: Option<seq<InterfaceRate>>)
    ensures rates.None? <==> maxRates <= 0 || elapsed <= 0.0
    ensures rates.Some? ==>
      rates.value == Rates(previous, if |current| <= maxRates then current else current[..maxRates], elapsed)
  {
    if maxRates <= 0 || elapsed <= 0.0 {
      return None;
    }
    var out: seq<InterfaceRate> := [];
    var i := 0;
    while i < |current| && |out| < maxRates
      invariant 0 <= i <= |current| && |out| == i <= maxRates
      invariant forall k :: 0 <= k < i ==> out[k] == Rate(previous, current[k], elapsed)
    {
      var prev := FindStat(previous, current[i].name);
      var rxDelta, txDelta := 0, 0;
      if prev.Some? {
        if current[i].rx >= prev.value.rx {
          rxDelta := current[i].rx - prev.value.rx;
        }
        if current[i].tx >= prev.value.tx {
          txDelta := current[i].tx - prev.value.tx;
        }
      }
      out := out + [InterfaceRate(Fit(current[i].name, NAME_SIZE), rxDelta as real / elapsed, txDelta as real / elapsed)];
      i := i + 1;
    }
    rates := Some(out);
  }

  // ---------------------------------------------------------------- totals

  function Total(rates: seq<InterfaceRate>, d: Direction): real {
    if rates == [] then 0.0 else RateIn(rates[0], d) + Total(rates[1..], d)
  }

  function TotalBytes(stats: seq<InterfaceStat>, d: Direction): nat {
    if stats == [] then 0 else Bytes(stats[0], d) + TotalBytes(stats[1..], d)
  }

  function TotalDelta(previous: seq<InterfaceStat>, current: seq<InterfaceStat>, d: Direction): nat {
    if current == [] then 0 else Delta(previous, current[0], d) + TotalDelta(previous, current[1..], d)
  }

  lemma {:induction false} TotalAppend(rates: seq<InterfaceRate>, r: InterfaceRate, d: Direction)
    ensures Total(rates + [r], d) == Total(rates, d) + RateIn(r, d)
  {
    if rates != [] {
      assert (rates + [r])[1..] == rates[1..] + [r];
      TotalAppend(rates[1..], r, d);
    }
  }

  /** `sum_interface_rate` and `sum_rate_bytes`. */
  method SumRates(rates: seq<InterfaceRate>, d: Direction) returns (total: real)
    ensures total == Total(rates, d)
  {
    total := 0.0;
    for i := 0 to |rates|
      invariant total == Total(rates[..i], d)
    {
      TotalAppend(rates[..i], rates[i], d);
      assert rates[..i + 1] == rates[..i] + [rates[i]];
      total := total + RateIn(rates[i], d);
    }
    assert rates[..|rates|] == rates;
  }

  lemma AddQuotients(a: int, b: int, e: real)
    requires e > 0.0
    ensures a as real / e + b as real / e == (a + b) as real / e
  {
  }

  function TotalPerSecond(previous: seq<InterfaceStat>, current: seq<InterfaceStat>, elapsed: real, d: Direction): real
    requires elapsed > 0.0
  {
    if current == [] then 0.0
    else Delta(previous, current[0], d) as real / elapsed + TotalPerSecond(previous, current[1..], elapsed, d)
  }

  lemma {:induction false} TotalOfRates(
    previous: seq<InterfaceStat>, current: seq<InterfaceStat>, elapsed: real, d: Direction)
    requires elapsed > 0.0
    ensures Total(Rates(previous, current, elapsed), d) == TotalPerSecond(previous, current, elapsed, d)
  {
    if current != [] {
      assert Rates(previous, current, elapsed)[1..] == Rates(previous, current[1..], elapsed);
      TotalOfRates(previous, current[1..], elapsed, d);
    }
  }

  lemma {:induction false} TotalIsQuotient(
    previous: seq<InterfaceStat>, current: seq<InterfaceStat>, elapsed: real, d: Direction)
    requires elapsed > 0.0
    ensures TotalPerSecond(previous, current, elapsed, d) == TotalDelta(previous, current, d) as real / elapsed
  {
    if current != [] {
      TotalIsQuotient(previous, current[1..], elapsed, d);
      AddQuotients(Delta(previous, current[0], d), TotalDelta(previous, current[1..], d), elapsed);
    }
  }

  /** The rates sum to the counted bytes over the time passed. */
  lemma TotalRate(previous: seq<InterfaceStat>, current: seq<InterfaceStat>, elapsed: real, d: Direction)
    requires elapsed > 0.0
    ensures Total(Rates(previous, current, elapsed), d) == TotalDelta(previous, current, d) as real / elapsed
  {
    TotalOfRates(previous, current, elapsed, d);
    TotalIsQuotient(previous, current, elapsed, d);
  }

  // ---------------------------------------------------------------- the same interfaces in both snapshots

  predicate UniqueNames(stats: seq<InterfaceStat>) {
    forall i, j :: 0 <= i < j < |stats| ==> stats[i].name != stats[j].name
  }

  function Names(stats: seq<InterfaceStat>): set<string> {
    set i | 0 <= i < |stats| :: stats[i].name
  }

  predicate SameInterfaces(previous: seq<InterfaceStat>, current: seq<InterfaceStat>) {
    UniqueNames(previous) && UniqueNames(current) && Names(previous) == Names(current)
  }

  /** No counter in direction `d` is below its previous value. */
  predicate NoneFell(previous: seq<InterfaceStat>, current: seq<InterfaceStat>, d: Direction) {
    forall i :: 0 <= i < |current| ==>
      var p := Find(previous, current[i].name);
      p.Some? ==> Bytes(p.value, d) <= Bytes(current[i], d)
  }

  function Index(stats: seq<InterfaceStat>, name: string): (k: nat)
    requires name in Names(stats)
    ensures k < |stats| && stats[k].name == name && Find(stats, name) == Some(stats[k])
  {
    if stats[0].name == name then 0
    else
      assert name in Names(stats[1..]) by {
        var i :| 0 <= i < |stats| && stats[i].name == name;
        assert stats[1..][i - 1].name == name;
      }
      1 + Index(stats[1..], name)
  }

  function Without(stats: seq<InterfaceStat>, k: nat): seq<InterfaceStat>
    requires k < |stats|
  {
    stats[..k] + stats[k + 1..]
  }

  lemma {:induction false} TotalBytesWithout(stats: seq<InterfaceStat>, k: nat, d: Direction)
    requires k < |stats|
    ensures TotalBytes(stats, d) == Bytes(stats[k], d) + TotalBytes(Without(stats, k), d)
  {
    if k == 0 {
      assert Without(stats, 0) == stats[1..];
    } else {
      assert Without(stats, k)[1..] == Without(stats[1..], k - 1);
      TotalBytesWithout(stats[1..], k - 1, d);
    }
  }

  lemma {:induction false} FindWithout(stats: seq<InterfaceStat>, k: nat, name: string)
    requires k < |stats| && stats[k].name != name
    ensures Find(Without(stats, k), name) == Find(stats, name)
  {
    if k == 0 {
      assert Without(stats, 0) == stats[1..];
    } else {
      assert Without(stats, k)[0] == stats[0];
      assert Without(stats, k)[1..] == Without(stats[1..], k - 1);
      FindWithout(stats[1..], k - 1, name);
    }
  }

  lemma NamesWithout(stats: seq<InterfaceStat>, k: nat)
    requires k < |stats| && UniqueNames(stats)
    ensures UniqueNames(Without(stats, k)) && Names(Without(stats, k)) == Names(stats) - {stats[k].name}
  {
    var less := Without(stats, k);
    forall n | n in Names(stats) - {stats[k].name}
      ensures n in Names(less)
    {
      var j :| 0 <= j < |stats| && stats[j].name == n;
      assert less[if j < k then j else j - 1].name == n;
    }
    forall n | n in Names(less)
      ensures n in Names(stats) - {stats[k].name}
    {
      var i :| 0 <= i < |less| && less[i].name == n;
      assert stats[if i < k then i else i + 1].name == n;
    }
  }

  lemma WithoutKeepsInterfaces(previous: seq<InterfaceStat>, current: seq<InterfaceStat>)
    requires SameInterfaces(previous, current) && current != []
    ensures current[0].name in Names(previous)
    ensures SameInterfaces(Without(previous, Index(previous, current[0].name)), current[1..])
  {
    assert current[0].name in Names(current);
    NamesWithout(previous, Index(previous, current[0].name));
    NamesWithout(current, 0);
    assert Without(current, 0) == current[1..];
  }

  lemma {:induction false} TotalDeltaWithout(previous: seq<InterfaceStat>, k: nat, current: seq<InterfaceStat>, d: Direction)
    requires k < |previous|
    requires forall i :: 0 <= i < |current| ==> current[i].name != previous[k].name
    ensures TotalDelta(Without(previous, k), current, d) == TotalDelta(previous, current, d)
    ensures NoneFell(Without(previous, k), current, d) <==> NoneFell(previous, current, d)
  {
    forall i | 0 <= i < |current|
      ensures Find(Without(previous, k), current[i].name) == Find(previous, current[i].name)
    {
      FindWithout(previous, k, current[i].name);
    }
    if current != [] {
      TotalDeltaWithout(previous, k, current[1..], d);
    }
  }

  lemma NoNamesNoInterfaces(stats: seq<InterfaceStat>)
    ensures Names(stats) == {} <==> stats == []
  {
    if stats != [] {
      assert stats[0].name in Names(stats);
    }
  }

  /** With the same interfaces in both snapshots, the counted bytes are at least the growth of the
      counters, and exactly that when and only when no counter fell. */
  lemma {:induction false} DeltaVersusGrowth(previous: seq<InterfaceStat>, current: seq<InterfaceStat>, d: Direction)
    requires SameInterfaces(previous, current)
    ensures TotalDelta(previous, current, d) >= TotalBytes(current, d) - TotalBytes(previous, d)
    ensures TotalDelta(previous, current, d) == TotalBytes(current, d) - TotalBytes(previous, d) <==>
            NoneFell(previous, current, d)
    decreases |current|
  {
    if current == [] {
      NoNamesNoInterfaces(previous);
    } else {
      WithoutKeepsInterfaces(previous, current);
      var k := Index(previous, current[0].name);
      DeltaVersusGrowth(Without(previous, k), current[1..], d);
      TotalBytesWithout(previous, k, d);
      assert forall i :: 0 <= i < |current[1..]| ==> current[1..][i].name != previous[k].name;
      TotalDeltaWithout(previous, k, current[1..], d);
      NoneFellSplits(previous, current, d);
    }
  }

  lemma NoneFellSplits(previous: seq<InterfaceStat>, current: seq<InterfaceStat>, d: Direction)
    requires current != [] && current[0].name in Names(previous)
    ensures NoneFell(previous, current, d) <==>
            Bytes(previous[Index(previous, current[0].name)], d) <= Bytes(current[0], d) &&
            NoneFell(previous, current[1..], d)
  {
    assert current == [current[0]] + current[1..];
  }
}
