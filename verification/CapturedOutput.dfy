/** Output from the command's pipe to the client's terminal: the bounded buffer
    (internal/maintenance/maintenance.go), the chunker (internal/server/output.go) and the client's
    reassembly (internal/clientapi/client.go). */
module CapturedOutput {
  import opened Common
  import opened Protocol

  type Bytes = seq<Byte>

  function Flat(parts: seq<Bytes>): Bytes {
    if parts == [] then [] else Flat(parts[..|parts| - 1]) + parts[|parts| - 1]
  }

  function First(s: Bytes, n: nat): Bytes {
    if |s| <= n then s else s[..n]
  }

  // ---- limitedBuffer ----

  /** Some write did not fit, or came (even empty) when the buffer was already full. */
  ghost predicate Overflowed(writes: seq<Bytes>, max: nat) {
    || |Flat(writes)| > max
    || exists i :: 0 <= i < |writes| && writes[i] == [] && |Flat(writes[..i])| >= max
  }

  class LimitedBuffer {
    const max: nat
    var data: Bytes
    var truncated: bool
    ghost var writes: seq<Bytes>

    ghost predicate Valid()
      reads this
    {
      data == First(Flat(writes), max) && (truncated <==> Overflowed(writes, max))
    }

    constructor (max: nat)
      ensures Valid() && writes == [] && this.max == max
    {
      this.max, data, truncated, writes := max, [], false, [];
    }

    method Write(p: Bytes) returns (n: nat)
      requires Valid()
      modifies this
      ensures Valid() && writes == old(writes) + [p]
      ensures n == |p|
    {
      OverflowStep(writes, p, max);
      var remaining := max - |data|;
      writes := writes + [p];
      if remaining <= 0 {
        truncated := true;
        return |p|;
      }
      var q := p;
      if |q| > remaining {
        truncated := true;
        q := q[..remaining];
      }
      data := data + q;
      return |p|;
    }

    method Snapshot() returns (output: Bytes, cut: bool)
      requires Valid()
      ensures output == First(Flat(writes), max)
      ensures (forall i :: 0 <= i < |writes| ==> writes[i] != []) ==> (cut <==> |Flat(writes)| > max)
      ensures cut <==> Overflowed(writes, max)
    {
      output, cut := data, truncated;
    }
  }

  lemma OverflowStep(writes: seq<Bytes>, p: Bytes, max: nat)
    ensures Flat(writes + [p]) == Flat(writes) + p
    ensures Overflowed(writes + [p], max)
       <==> Overflowed(writes, max) || |Flat(writes)| + |p| > max || (p == [] && |Flat(writes)| >= max)
  {
    var all := writes + [p];
    assert all[..|writes|] == writes;
    assert forall i :: 0 <= i < |writes| ==> all[..i] == writes[..i] && all[i] == writes[i];
    if Overflowed(writes, max) && |Flat(writes)| <= max {
      var i :| 0 <= i < |writes| && writes[i] == [] && |Flat(writes[..i])| >= max;
      assert all[i] == [] && |Flat(all[..i])| >= max;
    }
    if p == [] && |Flat(writes)| >= max {
      assert all[|writes|] == [] && |Flat(all[..|writes|])| >= max;
    }
  }

  // ---- StreamJobOutput ----

  const CHUNK: nat := 32 * 1024
  const SEQUENCES: nat := 0x1_0000_0000  // the counter is a uint32

  datatype Chunk = Chunk(sequence: nat, data: Bytes, final: bool)

  function Data(chunks: seq<Chunk>): seq<Bytes> {
    seq(|chunks|, i requires 0 <= i < |chunks| => chunks[i].data)
  }

  /** What a client may rely on: the pieces in order make the output, are numbered from 0, are full
      except the last, and exactly the last is marked final. */
  ghost predicate IsChunking(output: Bytes, chunks: seq<Chunk>) {
    && |chunks| > 0
    && Flat(Data(chunks)) == output
    && (forall i :: 0 <= i < |chunks| ==> chunks[i].sequence == i % 0x1_0000_0000)
    && (forall i :: 0 <= i < |chunks| ==> (chunks[i].final <==> i == |chunks| - 1))
    && (forall i :: 0 <= i < |chunks| - 1 ==> |chunks[i].data| == 32_768)
    && |chunks[|chunks| - 1].data| <= 32_768
    && (output != [] ==> |chunks[|chunks| - 1].data| > 0)
  }

  /** The loop's progress: every chunk sent so far is full unless it is the final one. */
  ghost predicate SentSoFar(output: Bytes, sent: seq<Chunk>) {
    && Flat(Data(sent)) == First(output, |sent| * CHUNK)
    && forall i :: 0 <= i < |sent| ==>
        && sent[i].sequence == i % SEQUENCES
        && (sent[i].final <==> (i + 1) * CHUNK >= |output|)
        && |sent[i].data| == (if (i + 1) * CHUNK <= |output| then CHUNK else |output| - i * CHUNK)
  }

  lemma SendStep(output: Bytes, sent: seq<Chunk>, piece: Chunk)
    requires SentSoFar(output, sent)
    requires |sent| * CHUNK < |output|
    requires var start, end := |sent| * CHUNK, if (|sent| + 1) * CHUNK > |output| then |output|
        else (|sent| + 1) * CHUNK;
             piece == Chunk(|sent| % SEQUENCES, output[start..end], end == |output|)
    ensures SentSoFar(output, sent + [piece])
  {
    var start, end := |sent| * CHUNK, if (|sent| + 1) * CHUNK > |output| then |output| else (|sent| + 1) * CHUNK;
    assert Data(sent + [piece]) == Data(sent) + [piece.data];
    assert (Data(sent) + [piece.data])[..|sent|] == Data(sent);
    assert output[..start] + output[start..end] == output[..end];
    assert end == |output| ==> output[..end] == output;
  }

  lemma SentAll(output: Bytes, sent: seq<Chunk>)
    requires SentSoFar(output, sent) && output != []
    requires |output| <= |sent| * CHUNK < |output| + CHUNK
    ensures IsChunking(output, sent)
  {
    assert First(output, |sent| * CHUNK) == output;
  }

  lemma NextSequence(n: nat)
    ensures (n % SEQUENCES + 1) % SEQUENCES == (n + 1) % SEQUENCES
  {}

  lemma NoOutputIsOneChunk()
    ensures IsChunking([], [Chunk(0, [], true)])
  {
    assert Data([Chunk(0, [], true)]) == [[]];
  }

  /** How many chunks an output is sent in. */
  function Count(output: Bytes): nat {
    if output == [] then 1 else (|output| - 1) / CHUNK + 1
  }

  function ChunkAt(output: Bytes, i: nat): Chunk
    requires i * CHUNK <= |output|
  {
    var end := if (i + 1) * CHUNK > |output| then |output| else (i + 1) * CHUNK;
    Chunk(i % SEQUENCES, output[i * CHUNK..end], end == |output|)
  }

  lemma CountBounds(output: Bytes, i: nat)
    ensures i < Count(output) ==> i * CHUNK <= |output|
    ensures output != [] ==> (i < Count(output) <==> i * CHUNK < |output|)
  {}

  /** All chunks of an output, in order. */
  function Chunks(output: Bytes): seq<Chunk> {
    seq(Count(output), i requires 0 <= i < Count(output) => CountBounds(output, i); ChunkAt(output, i))
  }

  lemma {:induction false} ChunksSoFar(output: Bytes, n: nat)
    requires output != [] && n <= Count(output)
    ensures SentSoFar(output, Chunks(output)[..n])
  {
    if n == 0 {
    } else {
      ChunksSoFar(output, n - 1);
      CountBounds(output, n - 1);
      SendStep(output, Chunks(output)[..n - 1], Chunks(output)[n - 1]);
      assert Chunks(output)[..n] == Chunks(output)[..n - 1] + [Chunks(output)[n - 1]];
    }
  }

  /** They are a chunking in the sense clients rely on. */
  lemma {:induction false} ChunksAreChunking(output: Bytes)
    ensures IsChunking(output, Chunks(output))
  {
    if output == [] {
      NoOutputIsOneChunk();
      assert Chunks(output) == [Chunk(0, [], true)];
    } else {
      var n := Count(output);
      ChunksSoFar(output, n);
      assert Chunks(output)[..n] == Chunks(output);
      CountBounds(output, n);
      CountBounds(output, n - 1);
      SentAll(output, Chunks(output));
    }
  }

  /** The stored job row, or None when there is no such job; `sends` is how many sends succeed before one
      fails. */
  method StreamJobOutput(row: Option<(Bytes, JobState)>, sends: nat) returns (sent: seq<Chunk>, error: Option<string>)
    ensures row.None? || Open(row.value.1) ==> sent == [] && error.Some?
    ensures row.Some? && !Open(row.value.1) ==>
      var all := Chunks(row.value.0);
          sent == (if sends < |all| then all[..sends] else all) && (error.None? <==> sends >= |all|)
  {
    sent := [];
    if row.None? {
      return [], Some("job output not found");
    }
    var (output, state) := row.value;
    if Open(state) {
      return [], Some("job still running");
    }
    var sequence, start := 0, 0;
    while start < |output|
      invariant start == |sent| * CHUNK && start < |output| + CHUNK
      invariant sequence == |sent| % SEQUENCES
      invariant |sent| <= sends && |sent| <= Count(output) && sent == Chunks(output)[..|sent|]
      invariant start >= |output| && output != [] ==> |sent| == Count(output)
    {
      var end := start + CHUNK;
      if end > |output| {
        end := |output|;
      }
      CountBounds(output, |sent|);
      CountBounds(output, |sent| + 1);
      assert Chunk(sequence, output[start..end], end == |output|) == Chunks(output)[|sent|];
      if |sent| == sends {
        return sent, Some("send failed");
      }
      sent := sent + [Chunk(sequence, output[start..end], end == |output|)];
      NextSequence(|sent| - 1);
      sequence, start := (sequence + 1) % SEQUENCES, start + CHUNK;
    }
    if |output| == 0 {
      if sends == 0 {
        return [], Some("send failed");
      }
      return [Chunk(0, [], true)], None;
    }
    return sent, None;
  }

  /** The chunking is determined by the output. */
  lemma {:induction false} ChunkingIsUnique(output: Bytes, a: seq<Chunk>, b: seq<Chunk>)
    requires IsChunking(output, a) && IsChunking(output, b)
    ensures a == b
  {
    ChunkCount(output, a);
    ChunkCount(output, b);
    assert |b| * CHUNK >= |output| && |a| * CHUNK >= |output|;
    assert |a| == |b|;
    LastLength(output, a);
    LastLength(output, b);
    forall i | 0 <= i < |a| ensures a[i] == b[i] {
      PieceAt(a, i);
      PieceAt(b, i);
    }
  }

  lemma FlatSplit(parts: seq<Bytes>)
    requires parts != []
    ensures Flat(parts) == Flat(parts[..|parts| - 1]) + parts[|parts| - 1]
  {}

  lemma {:induction false} FullPrefix(chunks: seq<Chunk>, n: nat)
    requires n <= |chunks| && forall i :: 0 <= i < n ==> |chunks[i].data| == CHUNK
    ensures |Flat(Data(chunks)[..n])| == n * CHUNK
  {
    if n == 0 {
    } else {
      FullPrefix(chunks, n - 1);
      assert Data(chunks)[..n][..n - 1] == Data(chunks)[..n - 1];
    }
  }

  /** Chunk i is the slice of the whole at i * CHUNK. */
  lemma {:induction false} PieceAt(chunks: seq<Chunk>, i: nat)
    requires i < |chunks| && forall j :: 0 <= j < |chunks| - 1 ==> |chunks[j].data| == CHUNK
    ensures i * CHUNK + |chunks[i].data| <= |Flat(Data(chunks))|
    ensures Flat(Data(chunks))[i * CHUNK..i * CHUNK + |chunks[i].data|] == chunks[i].data
  {
    var all := Data(chunks);
    FullPrefix(chunks, i);
    assert all[..i + 1][..i] == all[..i];
    assert Flat(all[..i + 1]) == Flat(all[..i]) + chunks[i].data;
    FlatExtends(all, i + 1);
  }

  lemma {:induction false} FlatExtends(parts: seq<Bytes>, n: nat)
    requires n <= |parts|
    ensures Flat(parts[..n]) <= Flat(parts)
  {
    if n < |parts| {
      FlatExtends(parts[..|parts| - 1], n);
      assert parts[..|parts| - 1][..n] == parts[..n];
    } else {
      assert parts[..n] == parts;
    }
  }

  // ---- streamJobOutput ----

  /** How a chunk stream ends after its chunks: cleanly, or with an error. */
  datatype Stream = Stream(chunks: seq<Chunk>, failed: bool)

  /** Index of the first final chunk, or the number of chunks. */
  function FirstFinal(chunks: seq<Chunk>): (n: nat)
    ensures n <= |chunks|
    ensures n < |chunks| ==> chunks[n].final
    ensures forall i :: 0 <= i < n ==> !chunks[i].final
  {
    if chunks == [] || chunks[0].final then 0 else 1 + FirstFinal(chunks[1..])
  }

  method Receive(stream: Stream) returns (out: Result<Bytes>)
    ensures var n := FirstFinal(stream.chunks);
            if n < |stream.chunks| then out == Ok(Flat(Data(stream.chunks[..n + 1])))
            else if stream.failed then out.Err?
            else out == Ok(Flat(Data(stream.chunks)))
  {
    var built: Bytes := [];
    var i := 0;
    while i < |stream.chunks|
      invariant 0 <= i <= |stream.chunks|
      invariant built == Flat(Data(stream.chunks[..i]))
      invariant i <= FirstFinal(stream.chunks)
    {
      var chunk := stream.chunks[i];
      assert Data(stream.chunks[..i + 1]) == Data(stream.chunks[..i]) + [chunk.data];
      assert Data(stream.chunks[..i + 1])[..i] == Data(stream.chunks[..i]);
      built := built + chunk.data;
      if chunk.final {
        return Ok(built);
      }
      i := i + 1;
    }
    assert stream.chunks[..i] == stream.chunks;
    if stream.failed {
      return Err("stream error");
    }
    return Ok(built);
  }

  /** A client finds the end of a chunking at its last chunk, and in no proper part of it. */
  lemma FinalOnlyAtEnd(output: Bytes, chunks: seq<Chunk>, n: nat)
    requires IsChunking(output, chunks) && n <= |chunks|
    ensures FirstFinal(chunks[..n]) == if n < |chunks| then n else n - 1
    ensures chunks[..|chunks|] == chunks
  {}

  /** The chunks sent hold the whole output and its final chunk, or no final chunk at all. */
  lemma SentDecides(output: Bytes, sends: nat)
    ensures var all := Chunks(output);
            var sent := if sends < |all| then all[..sends] else all;
            && (FirstFinal(sent) < |sent| <==> sends >= |all|)
            && (sends >= |all| <==> sends * CHUNK >= |output| && sends > 0)
            && (sends >= |all| ==> Flat(Data(sent[..FirstFinal(sent) + 1])) == output)
  {
    var all := Chunks(output);
    ChunksAreChunking(output);
    ChunkCount(output, all);
    FinalOnlyAtEnd(output, all, if sends < |all| then sends else |all|);
  }

  /** One fetch of a job's output over a stream that takes `delivered` chunks. */
  method Fetch(row: Option<(Bytes, JobState)>, delivered: nat) returns (client: Result<Bytes>)
    ensures client.Ok? ==> row.Some? && client.value == row.value.0
    ensures client.Ok? <==>
      row.Some? && row.value.1 != Dispatched && row.value.1 != Running
      && delivered * CHUNK >= |row.value.0| && delivered > 0
  {
    var sent, error := StreamJobOutput(row, delivered);
    if row.Some? && !Open(row.value.1) {
      SentDecides(row.value.0, delivered);
    } else {
      assert FirstFinal(sent) == 0;
    }
    client := Receive(Stream(sent, error.Some?));
  }

  /** From the command's writes to the client: with any non-empty writes the client gets exactly the
      first `max` bytes, and a stream that breaks before its last chunk is never taken for complete. */
  method CapturedEndToEnd(max: nat, writes: seq<Bytes>, state: JobState, delivered: nat)
    returns (client: Result<Bytes>, cut: bool)
    requires max > 0 && !Open(state)
    requires forall i :: 0 <= i < |writes| ==> writes[i] != []
    ensures cut <==> |Flat(writes)| > max
    ensures client.Ok? ==> client.value == First(Flat(writes), max)
    ensures client.Ok? <==> delivered * CHUNK >= |First(Flat(writes), max)| && delivered > 0
  {
    var buffer := new LimitedBuffer(max);
    var i := 0;
    while i < |writes|
      invariant 0 <= i <= |writes| && buffer.Valid() && buffer.max == max && fresh(buffer)
      invariant buffer.writes == writes[..i]
    {
      var _ := buffer.Write(writes[i]);
      i := i + 1;
    }
    assert writes[..i] == writes;
    var output: Bytes;
    output, cut := buffer.Snapshot();
    client := Fetch(Some((output, state)), delivered);
  }

  lemma LastLength(output: Bytes, chunks: seq<Chunk>)
    requires IsChunking(output, chunks)
    ensures |output| == (|chunks| - 1) * CHUNK + |chunks[|chunks| - 1].data|
  {
    FullPrefix(chunks, |chunks| - 1);
    FlatSplit(Data(chunks));
  }

  lemma {:induction false} ChunkCount(output: Bytes, chunks: seq<Chunk>)
    requires IsChunking(output, chunks)
    ensures forall n: nat :: n >= |chunks| <==> n * CHUNK >= |output| && n > 0
  {
    LastLength(output, chunks);
  }
}
