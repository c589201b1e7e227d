/** How a batch is split among the workers. */
module Chunking {
  datatype Chunk = Chunk(start: nat, end: nat)

  /** The chunks follow one another from 0 to n, and none is empty. */
  predicate Covers(chunks: seq<Chunk>, n: nat) {
    && (forall w | 0 <= w < |chunks| :: chunks[w].start < chunks[w].end <= n)
    && (forall w | 0 <= w < |chunks| - 1 :: chunks[w].end == chunks[w + 1].start)
    && (if chunks == [] then n == 0 else chunks[0].start == 0 && chunks[|chunks| - 1].end == n)
  }

  lemma CeilingDivision(n: nat, workers: nat)
    requires 0 < workers <= n
    ensures var size := (n + workers - 1) / workers; 0 < size && workers * size >= n
  {
    var size := (n + workers - 1) / workers;
    assert n + workers - 1 == workers * size + (n + workers - 1) % workers;
  }

  lemma NextStart(i: nat, size: nat)
    ensures (i + 1) * size == i * size + size && i * size >= 0
  {}

  lemma CoversMore(chunks: seq<Chunk>, m: nat, end: nat)
    requires Covers(chunks, m) && m < end
    ensures Covers(chunks + [Chunk(m, end)], end)
  {
    var more := chunks + [Chunk(m, end)];
    forall w | 0 <= w < |more| - 1 ensures more[w].end == more[w + 1].start {
      assert more[w] == chunks[w];
    }
  }

  /** The splitting loop of processBatch. */
  method Chunks(n: nat, workerCount: int) returns (chunks: seq<Chunk>)
    ensures Covers(chunks, n)
    ensures |chunks| <= (if workerCount <= 0 then 1 else if workerCount > n then n else workerCount)
  {
    chunks := [];
    if n == 0 {
      return;
    }
    var workers := workerCount;
    if workers > n {
      workers := n;
    }
    if workers <= 0 {
      workers := 1;
    }
    var chunkSize := (n + workers - 1) / workers;
    CeilingDivision(n, workers);
    ghost var reached: nat := 0;
    for i := 0 to workers
      invariant reached == if i * chunkSize > n then n else i * chunkSize
      invariant |chunks| == i && Covers(chunks, reached)
    {
      NextStart(i, chunkSize);
      var start := i * chunkSize;
      if start >= n {
        break;
      }
      var end := start + chunkSize;
      if end > n {
        end := n;
      }
      CoversMore(chunks, start, end);
      chunks := chunks + [Chunk(start, end)];
      reached := end;
    }
  }

  predicate In(i: nat, c: Chunk) {
    c.start <= i < c.end
  }

  /** Every index of the batch is in exactly one chunk. */
  lemma InOneChunk(chunks: seq<Chunk>, n: nat, i: nat)
    requires Covers(chunks, n) && i < n
    ensures exists w: nat | w < |chunks| ::
              In(i, chunks[w]) && forall v: nat | v < |chunks| && In(i, chunks[v]) :: v == w
  {
    var w := 0;
    while chunks[w].end <= i
      invariant w < |chunks| && chunks[w].start <= i
      invariant forall v | 0 <= v < w :: chunks[v].end <= i
      decreases |chunks| - w
    {
      w := w + 1;
    }
    forall v | w < v < |chunks| ensures i < chunks[v].start {
      ChunksAscend(chunks, n, w, v);
    }
    assert In(i, chunks[w]);
  }

  lemma {:induction false} ChunksAscend(chunks: seq<Chunk>, n: nat, w: nat, v: nat)
    requires Covers(chunks, n) && w < v < |chunks|
    ensures chunks[w].end <= chunks[v].start
  {
    if w + 1 < v {
      ChunksAscend(chunks, n, w, v - 1);
    }
  }
}
