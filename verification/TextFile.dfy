/** Text files as `fgets` reads them. */
module TextFile {
  import opened CStrings

  /** How many bytes `fgets` takes: up to a newline, at most `limit`. */
  function ChunkLength(bytes: string, limit: nat): (n: nat)
    ensures n <= |bytes| && n <= limit
    ensures bytes != "" && limit > 0 ==> n > 0
  {
    if bytes == "" || limit == 0 then 0
    else if bytes[0] == '\n' then 1
    else 1 + ChunkLength(bytes[1..], limit - 1)
  }

  /** What successive calls with a buffer of `size` bytes take from a file. */
  function Chunks(bytes: string, size: nat): seq<string>
    requires size > 1
  {
    if bytes == "" then []
    else
      var n := ChunkLength(bytes, size - 1);
      [bytes[..n]] + Chunks(bytes[n..], size)
  }

  lemma NextChunk(done: seq<string>, rest: string, size: nat)
    requires size > 1 && rest != ""
    ensures var n := ChunkLength(rest, size - 1);
            done + Chunks(rest, size) == (done + [rest[..n]]) + Chunks(rest[n..], size)
  {
  }

  /** The text of a chunk: up to its newline or to a NUL. */
  function LineOf(chunk: string): (r: string)
    ensures |r| <= |chunk| && NulFree(r) && '\n' !in r
  {
    if chunk == "" || chunk[0] == '\n' || chunk[0] == '\0' then "" else [chunk[0]] + LineOf(chunk[1..])
  }

  lemma {:induction false} LineOfIs(chunk: string, n: nat)
    requires n <= |chunk| && (forall k :: 0 <= k < n ==> chunk[k] != '\n' && chunk[k] != '\0')
    requires n == |chunk| || chunk[n] == '\n' || chunk[n] == '\0'
    ensures LineOf(chunk) == chunk[..n]
  {
    if n > 0 {
      LineOfIs(chunk[1..], n - 1);
      assert chunk[..n] == [chunk[0]] + chunk[1..][..n - 1];
    }
  }

  lemma {:induction false} ChunkLengthSplit(a: string, b: string, limit: nat)
    requires a != "" && a[|a| - 1] == '\n'
    ensures ChunkLength(a + b, limit) == ChunkLength(a, limit)
  {
    if limit > 0 && a[0] != '\n' {
      assert (a + b)[1..] == a[1..] + b;
      ChunkLengthSplit(a[1..], b, limit - 1);
    }
  }

  lemma CutConcat(a: string, b: string, n: nat)
    requires n <= |a|
    ensures (a + b)[..n] == a[..n] && (a + b)[n..] == a[n..] + b
  {
  }

  lemma ChunksStart(bytes: string, size: nat, n: nat)
    requires size > 1 && bytes != "" && n == ChunkLength(bytes, size - 1)
    ensures Chunks(bytes, size) == [bytes[..n]] + Chunks(bytes[n..], size)
  {
  }

  lemma Associate(a: seq<string>, b: seq<string>, c: seq<string>)
    ensures a + b + c == a + (b + c)
  {
  }

  predicate EndsLine(a: string) {
    a == "" || a[|a| - 1] == '\n'
  }

  lemma RestEndsLine(a: string, n: nat)
    requires EndsLine(a) && n <= |a|
    ensures EndsLine(a[n..])
  {
    assert n < |a| ==> a[n..][|a| - n - 1] == a[|a| - 1];
  }

  lemma FirstChunkConcat(a: string, b: string, size: nat, n: nat)
    requires size > 1 && a != "" && EndsLine(a) && n == ChunkLength(a, size - 1)
    requires Chunks(a[n..] + b, size) == Chunks(a[n..], size) + Chunks(b, size)
    ensures Chunks(a + b, size) == Chunks(a, size) + Chunks(b, size)
  {
    ChunkLengthSplit(a, b, size - 1);
    CutConcat(a, b, n);
    ChunksStart(a, size, n);
    ChunksStart(a + b, size, n);
    Associate([a[..n]], Chunks(a[n..], size), Chunks(b, size));
  }

  /** A text that ends its last line is read the same way in front of another. */
  lemma {:induction false} ChunksConcat(a: string, b: string, size: nat)
    requires size > 1 && EndsLine(a)
    ensures Chunks(a + b, size) == Chunks(a, size) + Chunks(b, size)
    decreases |a|
  {
    if a == "" {
      assert a + b == b;
    } else {
      var n := ChunkLength(a, size - 1);
      RestEndsLine(a, n);
      ChunksConcat(a[n..], b, size);
      FirstChunkConcat(a, b, size, n);
    }
  }
}
