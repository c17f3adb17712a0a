// pages/admin/AdminAllocationEnginePage.tsx: the live log of an engine run.
// The response body arrives as a sequence of decoded text chunks; each chunk
// is split at '\n' and its empty pieces dropped before being appended.

module AllocationEnginePage {
  import opened Common

  // ---------------------------------------------------------------------
  // chunk.split('\n').filter(Boolean) (:45)
  // ---------------------------------------------------------------------

  function NonEmpty(): string -> bool {
    (s: string) => s != ""
  }

  /** The log lines one chunk contributes. */
  function ChunkLines(chunk: string): (r: seq<string>)
    ensures forall i :: 0 <= i < |r| ==> r[i] != "" && '\n' !in r[i]
    ensures IsSubsequence(r, Split(chunk, '\n'))
  {
    SplitPiecesHaveNoSep(chunk, '\n');
    FilterIsSubsequence(Split(chunk, '\n'), NonEmpty());
    Filter(Split(chunk, '\n'), NonEmpty())
  }

  /** The pieces laid end to end. */
  function Concat(parts: seq<string>): string {
    if parts == [] then [] else parts[0] + Concat(parts[1..])
  }

  function NotNewline(): char -> bool {
    (c: char) => c != '\n'
  }

  lemma {:induction false} ConcatSplit(s: string)
    ensures Concat(Split(s, '\n')) == Filter(s, NotNewline())
    decreases |s|
  {
    if s != [] {
      ConcatSplit(s[1..]);
      var rest := Split(s[1..], '\n');
      if s[0] != '\n' {
        var r := Split(s, '\n');
        assert r[1..] == rest[1..];
        assert Concat(rest) == rest[0] + Concat(rest[1..]);
      }
    }
  }

  lemma {:induction false} ConcatDropsEmpty(parts: seq<string>)
    ensures Concat(Filter(parts, NonEmpty())) == Concat(parts)
    decreases |parts|
  {
    if parts != [] {
      ConcatDropsEmpty(parts[1..]);
      if parts[0] != "" {
        var f := Filter(parts, NonEmpty());
        assert f == [parts[0]] + Filter(parts[1..], NonEmpty());
        assert f[1..] == Filter(parts[1..], NonEmpty());
      } else {
        assert Filter(parts, NonEmpty()) == Filter(parts[1..], NonEmpty());
        assert Concat(parts) == parts[0] + Concat(parts[1..]) == Concat(parts[1..]);
      }
    }
  }

  /** No text is lost: the lines of a chunk, laid end to end, are the chunk
      without its line breaks. */
  lemma ChunkLinesKeepText(chunk: string)
    ensures Concat(ChunkLines(chunk)) == Filter(chunk, NotNewline())
  {
    ConcatDropsEmpty(Split(chunk, '\n'));
    ConcatSplit(chunk);
  }

  /** Chunk boundaries are line boundaries: a line whose text arrives in two
      chunks is logged as two entries. */
  lemma LineSplitAcrossChunks(a: string, b: string)
    requires a != "" && b != "" && '\n' !in a && '\n' !in b
    ensures ChunkLines(a) + ChunkLines(b) == [a, b]
  {
    SplitNoSep(a, '\n');
    SplitNoSep(b, '\n');
    assert Filter([a], NonEmpty()) == [a] + Filter([a][1..], NonEmpty());
    assert Filter([b], NonEmpty()) == [b] + Filter([b][1..], NonEmpty());
  }

  /** The log after the chunks read so far. */
  function AllLines(chunks: seq<string>): (r: seq<string>)
    ensures forall i :: 0 <= i < |r| ==> r[i] != "" && '\n' !in r[i]
    decreases |chunks|
  {
    if chunks == [] then []
    else AllLines(chunks[..|chunks| - 1]) + ChunkLines(chunks[|chunks| - 1])
  }

  /** Later chunks only add lines: the log so far stays a prefix. */
  lemma {:induction false} AllLinesPrefix(a: seq<string>, b: seq<string>)
    ensures |AllLines(a)| <= |AllLines(a + b)|
    ensures AllLines(a + b)[..|AllLines(a)|] == AllLines(a)
    decreases |b|
  {
    if b == [] {
      assert a + b == a;
    } else {
      AllLinesPrefix(a, b[..|b| - 1]);
      assert (a + b)[..|a + b| - 1] == a + b[..|b| - 1];
    }
  }

  const ErrorPrefix := "ERROR: "

  function ErrorLine(message: string): (r: string)
    ensures StartsWith(r, ErrorPrefix) && r[|ErrorPrefix|..] == message
  {
    ErrorPrefix + message
  }

  // ---------------------------------------------------------------------
  // startAllocation (:20-54)
  // ---------------------------------------------------------------------

  class LogMonitor {
    var logs: seq<string>
    var isRunning: bool

    constructor ()
      ensures logs == [] && !isRunning
    {
      logs := [];
      isRunning := false;
    }

    /** The log once the run is over: the chunks' lines, then one error
        line when the run failed. */
    static function FinalLogs(chunks: seq<string>, failure: Option<string>): (r: seq<string>)
      ensures failure.None? ==> r == AllLines(chunks)
      ensures failure.Some? ==> r == AllLines(chunks) + [ErrorLine(failure.value)]
    {
      AllLines(chunks) + if failure.Some? then [ErrorLine(failure.value)] else []
    }

    /** One run: `chunks` are the chunks read before the stream ended or the
        request failed, and `failure` is the message of the error thrown, if
        any (a missing body fails with no chunks read). */
    method StartAllocation(chunks: seq<string>, failure: Option<string>)
      modifies this
      ensures logs == FinalLogs(chunks, failure)
      ensures !isRunning
    {
      isRunning := true;
      logs := [];
      var i := 0;
      while i < |chunks|
        invariant 0 <= i <= |chunks|
        invariant logs == AllLines(chunks[..i])
      {
        assert chunks[..i + 1][..i] == chunks[..i];
        logs := logs + ChunkLines(chunks[i]);
        i := i + 1;
      }
      assert chunks[..i] == chunks;
      if failure.Some? {
        logs := logs + [ErrorLine(failure.value)];
      }
      isRunning := false;
    }
  }

  /** Whatever the outcome, every line of the final log is non-empty and a
      single line, and exactly the failed runs end with one error line. */
  lemma FinalLogsShape(chunks: seq<string>, failure: Option<string>)
    ensures var r := LogMonitor.FinalLogs(chunks, failure);
      (failure.Some? <==> |r| > |AllLines(chunks)|) &&
      (failure.Some? ==> |r| == |AllLines(chunks)| + 1 && StartsWith(r[|r| - 1], ErrorPrefix)) &&
      r[..|AllLines(chunks)|] == AllLines(chunks)
  {
  }
}
