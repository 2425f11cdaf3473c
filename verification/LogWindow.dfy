/** The window of recent log lines (`trfx_diagnostics`). */
module LogWindow {
  import opened CStrings
  import opened History
  import opened TextFile

  const MAX_LOG_LINES: nat := 12
  const LOG_LINE_SIZE: nat := 512

  datatype LogLine = LogLine(source: string, text: string)

  datatype CollectorStatus = CollectorOk | ParseFailed

  /** The line that a text becomes; a missing source is called `logs`. */
  function Entry(source: string, line: string): LogLine {
    LogLine(Fit(if source == "" then "logs" else source, 32), if |line| <= 255 then line else line[..255])
  }

  /** The entries of the lines that are not empty. */
  function Entries(source: string, chunks: seq<string>): seq<LogLine> {
    if chunks == [] then []
    else
      var front, line := Entries(source, chunks[..|chunks| - 1]), LineOf(chunks[|chunks| - 1]);
      if line == "" then front else front + [Entry(source, line)]
  }

  class LogSnapshot {
    var lines: array<LogLine>
    var count: nat
    var status: CollectorStatus
    ghost var added: seq<LogLine>

    /** The window is the last lines of everything ever added. */
    ghost predicate Valid()
      reads this, lines
    {
      lines.Length == MAX_LOG_LINES && count <= MAX_LOG_LINES && lines[..count] == LastN(added, MAX_LOG_LINES)
    }

    constructor ()
      ensures Valid() && fresh(lines) && added == [] && status == ParseFailed
    {
      lines := new LogLine[MAX_LOG_LINES](_ => LogLine("", ""));
      count := 0;
      status := ParseFailed;
      added := [];
    }

    /** `memmove` of all lines but the first to the front. */
    method Shift()
      requires lines.Length == MAX_LOG_LINES
      modifies lines
      ensures lines[..MAX_LOG_LINES - 1] == old(lines[1..])
    {
      ghost var was := lines[..];
      for i := 0 to MAX_LOG_LINES - 1
        invariant forall k :: 0 <= k < i ==> lines[k] == was[k + 1]
        invariant forall k :: i <= k < MAX_LOG_LINES ==> lines[k] == was[k]
      {
        lines[i] := lines[i + 1];
      }
    }

    method Put(slot: nat, entry: LogLine)
      requires slot < lines.Length
      modifies lines
      ensures lines[..slot + 1] == old(lines[..slot]) + [entry]
    {
      lines[slot] := entry;
    }

    /** `diagnostics_log_snapshot_add`; an empty line is not added. */
    method Add(source: string, line: string)
      requires Valid()
      modifies this`count, this`added, lines
      ensures Valid()
      ensures added == if line == "" then old(added) else old(added) + [Entry(source, line)]
    {
      if line == "" {
        return;
      }
      ghost var entry := Entry(source, line);
      ghost var window := lines[..count];
      LastNExtends(added, MAX_LOG_LINES, entry);
      var slot;
      if count < MAX_LOG_LINES {
        slot := count;
        count := count + 1;
      } else {
        Shift();
        slot := MAX_LOG_LINES - 1;
        assert lines[..slot] == window[1..];
      }
      ghost var kept := lines[..slot];
      Put(slot, Entry(source, line));
      added := added + [entry];
    }

    /** One chunk of a file; whether it added a line. */
    method AddChunk(source: string, chunk: string) returns (counted: bool)
      requires Valid()
      modifies this`count, this`added, lines
      ensures Valid()
      ensures counted <==> LineOf(chunk) != ""
      ensures added == if counted then old(added) + [Entry(source, LineOf(chunk))] else old(added)
    {
      var line := LineOf(chunk);
      if line == "" {
        return false;
      }
      Add(source, line);
      counted := true;
    }

    /** `diagnostics_collect_log_file`: adds every line of a file that is not empty. */
    method CollectFile(file: string, source: string) returns (r: CollectorStatus)
      requires Valid()
      modifies this`count, this`added, this`status, lines
      ensures Valid()
      ensures added == old(added) + Entries(source, Chunks(file, LOG_LINE_SIZE))
      ensures r == CollectorOk <==> Entries(source, Chunks(file, LOG_LINE_SIZE)) != []
      ensures status == if r == CollectorOk then CollectorOk else old(status)
    {
      var rest, lineCount := file, 0;
      ghost var before, all := added, Chunks(file, LOG_LINE_SIZE);
      ghost var done: seq<string> := [];
      while rest != ""
        invariant Valid() && status == old(status)
        invariant all == done + Chunks(rest, LOG_LINE_SIZE)
        invariant added == before + Entries(source, done) && lineCount == |Entries(source, done)|
        decreases |rest|
      {
        var n := ChunkLength(rest, LOG_LINE_SIZE - 1);
        NextEntries(source, before, done, rest, n, LOG_LINE_SIZE);
        var counted := AddChunk(source, rest[..n]);
        if counted {
          lineCount := lineCount + 1;
        }
        done := done + [rest[..n]];
        rest := rest[n..];
      }
      assert done + [] == done;
      if lineCount == 0 {
        return ParseFailed;
      }
      status := CollectorOk;
      r := CollectorOk;
    }

    method Count() returns (n: nat)
      requires Valid()
      ensures n == |LastN(added, MAX_LOG_LINES)|
    {
      n := count;
    }

    /** Newest first. */
    method At(index: nat) returns (line: Option<LogLine>)
      requires Valid()
      ensures var newestFirst := Reversed(LastN(added, MAX_LOG_LINES));
              line == if index < |newestFirst| then Some(newestFirst[index]) else None
    {
      if index >= count {
        return None;
      }
      line := Some(lines[count - 1 - index]);
      assert lines[..count][count - 1 - index] == lines[count - 1 - index];
    }
  }

  lemma MoreEntries(source: string, chunks: seq<string>, chunk: string)
    ensures Entries(source, chunks + [chunk]) ==
            if LineOf(chunk) == "" then Entries(source, chunks) else Entries(source, chunks) + [Entry(source, LineOf(chunk))]
  {
    assert (chunks + [chunk])[..|chunks|] == chunks;
  }

  /** One turn of the loop over a file's chunks. */
  lemma NextEntries(source: string, before: seq<LogLine>, done: seq<string>, rest: string, n: nat, size: nat)
    requires rest != "" && size > 1 && n == ChunkLength(rest, size - 1)
    ensures done + Chunks(rest, size) == (done + [rest[..n]]) + Chunks(rest[n..], size)
    ensures before + Entries(source, done + [rest[..n]]) ==
            before + Entries(source, done) + if LineOf(rest[..n]) == "" then [] else [Entry(source, LineOf(rest[..n]))]
  {
    NextChunk(done, rest, size);
    MoreEntries(source, done, rest[..n]);
  }

  /** Collecting two files in a row adds what one file with the lines of both would, if the first ends its
      last line. */
  lemma CollectedTogether(source: string, a: string, b: string)
    requires EndsLine(a)
    ensures Entries(source, Chunks(a + b, LOG_LINE_SIZE)) ==
            Entries(source, Chunks(a, LOG_LINE_SIZE)) + Entries(source, Chunks(b, LOG_LINE_SIZE))
  {
    ChunksConcat(a, b, LOG_LINE_SIZE);
    EntriesConcat(source, Chunks(a, LOG_LINE_SIZE), Chunks(b, LOG_LINE_SIZE));
  }

  lemma {:induction false} EntriesConcat(source: string, a: seq<string>, b: seq<string>)
    ensures Entries(source, a + b) == Entries(source, a) + Entries(source, b)
  {
    if b == [] {
      assert a + b == a;
    } else {
      assert (a + b)[..|a + b| - 1] == a + b[..|b| - 1];
      EntriesConcat(source, a, b[..|b| - 1]);
    }
  }
}
