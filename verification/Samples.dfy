/** Network snapshots and the ring of recent samples (`trfx_netinfo`). */
module Samples {
  import opened History

  const MAX_INTERFACES: nat := 20
  const SAMPLE_HISTORY: nat := 12
  const MAX_CONNECTIONS: nat := 512
  const MAX_SOCKET_OWNERS: nat := 256

  datatype InterfaceStat = InterfaceStat(name: string, rx: nat, tx: nat)

  datatype Connection = Connection(
    protocol: string, local: string, remote: string, state: string,
    inode: nat, uid: nat, user: string, pid: string, process: string)

  datatype SocketOwner = SocketOwner(
    pid: string, process: string, laddr: string, lport: string, raddr: string, rport: string, proto: string)

  /** The parts of a network snapshot that bandwidth estimation reads. */
  datatype Snapshot = Snapshot(interfaces: seq<InterfaceStat>, connections: seq<Connection>, owners: seq<SocketOwner>)

  /** Each list fits the fixed array it is stored in. */
  predicate FitsArrays(s: Snapshot) {
    |s.interfaces| <= MAX_INTERFACES && |s.connections| <= MAX_CONNECTIONS && |s.owners| <= MAX_SOCKET_OWNERS
  }

  datatype Sample = Sample(capturedAt: int, snapshot: Snapshot)

  /** The ring: `count` samples starting at slot `head`, oldest first. */
  class SampleBuffer {
    var samples: array<Sample>
    var head: nat
    var count: nat
    ghost var pushed: seq<Sample>

    function Contents(): (r: seq<Sample>)
      requires samples.Length == SAMPLE_HISTORY && count <= SAMPLE_HISTORY
      reads this, samples
    {
      Unrolled(samples[..], head, count)
    }

    /** The ring holds the last samples of everything ever pushed, and all of them fit their arrays. */
    ghost predicate Valid()
      reads this, samples
    {
      && samples.Length == SAMPLE_HISTORY
      && head < SAMPLE_HISTORY
      && count <= SAMPLE_HISTORY
      && Contents() == LastN(pushed, SAMPLE_HISTORY)
      && (forall i :: 0 <= i < |pushed| ==> FitsArrays(pushed[i].snapshot))
    }

    constructor ()
      ensures Valid() && fresh(samples) && pushed == []
    {
      samples := new Sample[SAMPLE_HISTORY](_ => Sample(0, Snapshot([], [], [])));
      head, count := 0, 0;
      pushed := [];
    }

    method Push(snapshot: Snapshot, capturedAt: int)
      requires Valid() && FitsArrays(snapshot)
      modifies this, samples
      ensures Valid() && samples == old(samples)
      ensures pushed == old(pushed) + [Sample(capturedAt, snapshot)]
    {
      ghost var data, x := samples[..], Sample(capturedAt, snapshot);
      if count < SAMPLE_HISTORY {
        RingGrows(data, head, count, pushed, x);
      } else {
        RingTurns(data, head, pushed, x);
      }
      var slot := (head + count) % SAMPLE_HISTORY;
      samples[slot] := Sample(capturedAt, snapshot);
      assert samples[..] == data[slot := x];
      if count < SAMPLE_HISTORY {
        count := count + 1;
      } else {
        head := (head + 1) % SAMPLE_HISTORY;
      }
      pushed := pushed + [x];
    }

    method Count() returns (n: nat)
      requires Valid()
      ensures n == |LastN(pushed, SAMPLE_HISTORY)|
    {
      n := count;
    }

    /** Oldest first; a null pointer is returned exactly for an index past the end. */
    method At(index: nat) returns (r: Option<Sample>)
      requires Valid()
      ensures r == if index < |LastN(pushed, SAMPLE_HISTORY)|
                   then Some(LastN(pushed, SAMPLE_HISTORY)[index]) else None
    {
      if index >= count {
        return None;
      }
      var slot := (head + index) % SAMPLE_HISTORY;
      r := Some(samples[slot]);
      assert Contents()[index] == samples[..][slot];
    }
  }
}
