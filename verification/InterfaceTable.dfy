/** The order of the interface table: the exchange sort of `render_interface_status_table` (`trfx_threads`). */
module InterfaceTable {
  import opened CStrings
  import opened History
  import opened Ordering
  import Samples

  datatype InterfaceStatus = InterfaceStatus(name: string, isUp: bool)

  /** The active interface first, then those that are up, then the others. */
  function Rank(active: Option<string>, s: InterfaceStatus): (r: int)
    ensures 0 <= r <= 2
    ensures r == 0 <==> active == Some(s.name)
    ensures r == 1 <==> active != Some(s.name) && s.isUp
  {
    if active.Some? && active.value == s.name then 0 else if s.isUp then 1 else 2
  }

  /** By rank, and by name within a rank. */
  function Compare(active: Option<string>, a: InterfaceStatus, b: InterfaceStatus): int {
    if Rank(active, a) != Rank(active, b) then Rank(active, a) - Rank(active, b) else Strcmp(a.name, b.name)
  }

  ghost predicate InOrder(active: Option<string>, s: seq<InterfaceStatus>) {
    forall i, j :: 0 <= i < j < |s| ==> Compare(active, s[i], s[j]) <= 0
  }

  lemma CompareFlips(active: Option<string>, a: InterfaceStatus, b: InterfaceStatus)
    ensures Compare(active, b, a) == -Compare(active, a, b)
  {
    StrcmpFlips(a.name, b.name);
  }

  lemma CompareTransitive(active: Option<string>, a: InterfaceStatus, b: InterfaceStatus, c: InterfaceStatus)
    requires Compare(active, a, b) <= 0 && Compare(active, b, c) <= 0
    ensures Compare(active, a, c) <= 0
  {
    if Rank(active, a) == Rank(active, b) == Rank(active, c) {
      StrcmpTransitive(a.name, b.name, c.name);
    }
  }

  /** The first `i` elements are in their final places: in order, and not behind anything that follows. */
  ghost predicate Placed(active: Option<string>, s: seq<InterfaceStatus>, i: nat) {
    i <= |s| && forall k, l :: 0 <= k < i && k < l < |s| ==> Compare(active, s[k], s[l]) <= 0
  }

  /** The candidate at `i` is not behind any of the elements up to `j`. */
  ghost predicate Least(active: Option<string>, s: seq<InterfaceStatus>, i: nat, j: nat) {
    i < j <= |s| && forall l :: i < l < j ==> Compare(active, s[i], s[l]) <= 0
  }

  lemma ExchangeStep(active: Option<string>, s: seq<InterfaceStatus>, i: nat, j: nat)
    requires Placed(active, s, i) && Least(active, s, i, j) && j < |s|
    ensures Compare(active, s[i], s[j]) <= 0 ==> Least(active, s, i, j + 1)
    ensures Compare(active, s[i], s[j]) > 0 ==>
              var t := s[i := s[j]][j := s[i]];
              Placed(active, t, i) && Least(active, t, i, j + 1)
  {
    if Compare(active, s[i], s[j]) > 0 {
      var t := s[i := s[j]][j := s[i]];
      CompareFlips(active, s[i], s[j]);
      forall l | i < l < j + 1
        ensures Compare(active, t[i], t[l]) <= 0
      {
        if l < j {
          CompareTransitive(active, s[j], s[i], s[l]);
        }
      }
      forall k, l | 0 <= k < i && k < l < |t|
        ensures Compare(active, t[k], t[l]) <= 0
      {
        assert Compare(active, s[k], s[i]) <= 0 && Compare(active, s[k], s[j]) <= 0;
      }
    }
  }

  /** The inner loop: leaves at `i` an element that is not behind any later one. */
  method ExchangeFrom(sorted: array<InterfaceStatus>, active: Option<string>, i: nat)
    requires i < sorted.Length && Placed(active, sorted[..], i)
    modifies sorted
    ensures Placed(active, sorted[..], i + 1)
    ensures multiset(sorted[..]) == multiset(old(sorted[..]))
  {
    var j := i + 1;
    while j < sorted.Length
      invariant i < j <= sorted.Length
      invariant Placed(active, sorted[..], i) && Least(active, sorted[..], i, j)
      invariant multiset(sorted[..]) == multiset(old(sorted[..]))
    {
      ExchangeStep(active, sorted[..], i, j);
      var leftRank, rightRank := Rank(active, sorted[i]), Rank(active, sorted[j]);
      if leftRank > rightRank || (leftRank == rightRank && Strcmp(sorted[i].name, sorted[j].name) > 0) {
        Swap(sorted, i, j);
      }
      j := j + 1;
    }
  }

  /** The table shows at most 20 interfaces: a permutation of the first ones, in order of rank and name. */
  method SortedInterfaces(items: seq<InterfaceStatus>, active: Option<string>) returns (sorted: array<InterfaceStatus>)
    ensures fresh(sorted)
    ensures multiset(sorted[..]) == multiset(if |items| <= Samples.MAX_INTERFACES then items else items[..Samples.MAX_INTERFACES])
    ensures InOrder(active, sorted[..])
  {
    var sortedCount := |items|;
    if sortedCount > Samples.MAX_INTERFACES {
      sortedCount := Samples.MAX_INTERFACES;
    }
    sorted := new InterfaceStatus[sortedCount](_ => InterfaceStatus("", false));
    for i := 0 to sortedCount
      invariant sorted[..i] == items[..i]
    {
      sorted[i] := items[i];
    }
    assert sorted[..] == items[..sortedCount] && items[..|items|] == items;
    var i := 0;
    while i < sortedCount - 1
      invariant 0 <= i && (sortedCount > 0 ==> i < sortedCount) && Placed(active, sorted[..], i)
      invariant multiset(sorted[..]) == multiset(items[..sortedCount])
    {
      ExchangeFrom(sorted, active, i);
      i := i + 1;
    }
  }

  /** In such a list the active interface is the first, if it is there, and none that is up follows one that is
      neither up nor active. */
  lemma OrderShowsActiveFirst(active: Option<string>, s: seq<InterfaceStatus>)
    requires InOrder(active, s)
    ensures (exists i :: 0 <= i < |s| && active == Some(s[i].name)) ==> active == Some(s[0].name)
    ensures forall i, j :: 0 <= i < j < |s| && s[j].isUp && active != Some(s[i].name) ==> s[i].isUp
    ensures forall i, j :: 0 <= i < j < |s| && Rank(active, s[i]) == Rank(active, s[j]) ==> Strcmp(s[i].name, s[j].name) <= 0
  {
    forall i, j | 0 <= i < j < |s|
      ensures Rank(active, s[i]) <= Rank(active, s[j])
      ensures Rank(active, s[i]) == Rank(active, s[j]) ==> Strcmp(s[i].name, s[j].name) <= 0
    {
      assert Compare(active, s[i], s[j]) <= 0;
    }
  }
}
