/** Bounded histories: the last `n` of everything ever added. */
module History {

  datatype Option<+T> = None | Some(value: T)

  function LastN<T>(s: seq<T>, n: nat): (r: seq<T>) {
    if |s| <= n then s else s[|s| - n..]
  }

  /** Keeping only the last `n` and then adding one is the last `n` after adding one to everything. */
  lemma LastNExtends<T>(all: seq<T>, n: nat, x: T)
    requires 0 < n
    ensures LastN(all + [x], n) == LastN(LastN(all, n) + [x], n)
    ensures |all| >= n ==> LastN(all + [x], n) == LastN(all, n)[1..] + [x]
    ensures |all| < n ==> LastN(all + [x], n) == LastN(all, n) + [x]
  {
  }

  function Reversed<T>(s: seq<T>): (r: seq<T>)
    ensures |r| == |s|
    ensures forall i :: 0 <= i < |s| ==> r[i] == s[|s| - 1 - i]
  {
    seq(|s|, i requires 0 <= i < |s| => s[|s| - 1 - i])
  }

  // ---------------------------------------------------------------- rings

  /** The `count` entries of a full-size ring from slot `head` on, wrapping at its end. */
  function Unrolled<T>(data: seq<T>, head: nat, count: nat): (r: seq<T>)
    requires 0 < |data| && count <= |data|
    ensures |r| == count
  {
    seq(count, i requires 0 <= i < count => data[(head + i) % |data|])
  }

  lemma WrapOnce(a: nat, n: nat)
    requires a < 2 * n
    ensures a % n == if a < n then a else a - n
  {
  }

  /** Writing behind the last entry of a ring that is not full appends. */
  lemma RingAppends<T>(data: seq<T>, head: nat, count: nat, x: T)
    requires count < |data| && head < |data|
    ensures Unrolled(data[(head + count) % |data| := x], head, count + 1) == Unrolled(data, head, count) + [x]
  {
    var data' := data[(head + count) % |data| := x];
    forall i | 0 <= i <= count
      ensures Unrolled(data', head, count + 1)[i] == (Unrolled(data, head, count) + [x])[i]
    {
      WrapOnce(head + i, |data|);
      WrapOnce(head + count, |data|);
    }
  }

  /** Writing over the first entry of a full ring and moving the head drops the oldest. */
  lemma RingReplaces<T>(data: seq<T>, head: nat, x: T)
    requires head < |data|
    ensures Unrolled(data[(head + |data|) % |data| := x], (head + 1) % |data|, |data|) ==
            Unrolled(data, head, |data|)[1..] + [x]
  {
    var n := |data|;
    var data' := data[(head + n) % n := x];
    forall i | 0 <= i < n
      ensures Unrolled(data', (head + 1) % n, n)[i] == (Unrolled(data, head, n)[1..] + [x])[i]
    {
      WrapOnce(head + n, n);
      WrapOnce(head + 1, n);
      WrapOnce((head + 1) % n + i, n);
      WrapOnce(head + 1 + i, n);
    }
  }

  lemma LastNStep<T>(all: seq<T>, n: nat, kept: seq<T>, x: T)
    requires 0 < n && kept == LastN(all, n)
    ensures LastN(all + [x], n) == (if |kept| < n then kept else kept[1..]) + [x]
  {
    LastNExtends(all, n, x);
  }

  /** One more entry in a ring that holds the last of everything ever added: while there is room it is appended. */
  lemma RingGrows<T>(data: seq<T>, head: nat, count: nat, all: seq<T>, x: T)
    requires head < |data| && count < |data| && Unrolled(data, head, count) == LastN(all, |data|)
    ensures Unrolled(data[(head + count) % |data| := x], head, count + 1) == LastN(all + [x], |data|)
  {
    LastNStep(all, |data|, Unrolled(data, head, count), x);
    RingAppends(data, head, count, x);
  }

  /** In a full ring it replaces the oldest. */
  lemma RingTurns<T>(data: seq<T>, head: nat, all: seq<T>, x: T)
    requires head < |data| && Unrolled(data, head, |data|) == LastN(all, |data|)
    ensures Unrolled(data[(head + |data|) % |data| := x], (head + 1) % |data|, |data|) == LastN(all + [x], |data|)
  {
    LastNStep(all, |data|, Unrolled(data, head, |data|), x);
    RingReplaces(data, head, x);
  }
}
