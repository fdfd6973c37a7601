/** The loop that cuts a list of streams into requests: i += chunk_size while i < streams.size(). */
module Chunking {

  datatype Request = Request(operation: string, params: seq<string>, id: int)

  function Min(a: int, b: int): int {
    if a < b then a else b
  }

  /** The slice sent by iteration k. */
  function ChunkAt(streams: seq<string>, chunkSize: nat, k: nat): seq<string> {
    var from, to := Min(k * chunkSize, |streams|), Min((k + 1) * chunkSize, |streams|);
    if from <= to then streams[from..to] else []
  }

  /** The slices sent by the first n iterations. */
  function Chunks(streams: seq<string>, chunkSize: nat, n: nat): (r: seq<seq<string>>)
    ensures |r| == n && forall k :: 0 <= k < n ==> r[k] == ChunkAt(streams, chunkSize, k)
  {
    seq(n, k requires 0 <= k < n => ChunkAt(streams, chunkSize, k))
  }

  /** The loop test before iteration n: none of the n steps taken so far has reached the end. */
  predicate Continues(streams: seq<string>, chunkSize: nat, n: nat) {
    n * chunkSize < |streams|
  }

  /** The number of slices: the size divided by the chunk size, rounded up. */
  function ChunkCount(size: nat, chunkSize: nat): nat
    requires 0 < chunkSize
  {
    (size + chunkSize - 1) / chunkSize
  }

  function Flatten(chunks: seq<seq<string>>): seq<string> {
    if chunks == [] then [] else Flatten(chunks[..|chunks|-1]) + chunks[|chunks|-1]
  }

  lemma MulMonotone(a: nat, b: nat, c: nat)
    requires a <= b
    ensures a * c <= b * c
  {}

  lemma CountBounds(size: nat, c: nat)
    requires 0 < c
    ensures var m := ChunkCount(size, c); size <= m * c < size + c
  {}

  /** The loop stops if and only if the chunks have a size or there is nothing to send. */
  lemma LoopStopsIff(streams: seq<string>, chunkSize: nat)
    ensures (exists n: nat :: !Continues(streams, chunkSize, n)) <==> 0 < chunkSize || streams == []
  {
    if 0 < chunkSize {
      CountBounds(|streams|, chunkSize);
      assert !Continues(streams, chunkSize, ChunkCount(|streams|, chunkSize));
    } else if streams == [] {
      assert !Continues(streams, chunkSize, 0);
    } else {
      forall n: nat ensures Continues(streams, chunkSize, n) {
        assert n * chunkSize == 0;
      }
    }
  }

  /** With chunks of size 0 the loop runs for ever on a non-empty list, sending empty requests. */
  lemma ZeroChunksNeverStop(streams: seq<string>, n: nat)
    requires streams != []
    ensures Continues(streams, 0, n) && forall k :: 0 <= k < n ==> Chunks(streams, 0, n)[k] == []
  {}

  /** The loop runs exactly ChunkCount times. */
  lemma {:induction false} LoopRunsCount(streams: seq<string>, chunkSize: nat, n: nat)
    requires 0 < chunkSize
    ensures Continues(streams, chunkSize, n) <==> n < ChunkCount(|streams|, chunkSize)
  {
    var m := ChunkCount(|streams|, chunkSize);
    CountBounds(|streams|, chunkSize);
    if n < m {
      MulMonotone(n + 1, m, chunkSize);
      assert (n + 1) * chunkSize == n * chunkSize + chunkSize;
    } else {
      MulMonotone(m, n, chunkSize);
    }
  }

  /** Every request but the last is full; the last is not empty. */
  lemma {:induction false} ChunkSizes(streams: seq<string>, chunkSize: nat, k: nat)
    requires 0 < chunkSize && k < ChunkCount(|streams|, chunkSize)
    ensures var size := |ChunkAt(streams, chunkSize, k)|;
            1 <= size <= chunkSize && (k + 1 < ChunkCount(|streams|, chunkSize) ==> size == chunkSize)
  {
    LoopRunsCount(streams, chunkSize, k);
    LoopRunsCount(streams, chunkSize, k + 1);
    assert (k + 1) * chunkSize == k * chunkSize + chunkSize;
  }

  lemma NextSlice(streams: seq<string>, chunkSize: nat, n: nat)
    ensures streams[..Min(n * chunkSize, |streams|)] + ChunkAt(streams, chunkSize, n)
            == streams[..Min((n + 1) * chunkSize, |streams|)]
  {
    MulMonotone(n, n + 1, chunkSize);
  }

  /** The first n requests carry the first n chunk sizes of the list, in order. */
  lemma {:induction false} ChunksFlatten(streams: seq<string>, chunkSize: nat, n: nat)
    ensures Flatten(Chunks(streams, chunkSize, n)) == streams[..Min(n * chunkSize, |streams|)]
  {
    hide ChunkAt;
    if n > 0 {
      assert Chunks(streams, chunkSize, n)[..n-1] == Chunks(streams, chunkSize, n - 1);
      ChunksFlatten(streams, chunkSize, n - 1);
      NextSlice(streams, chunkSize, n - 1);
    }
  }

  /** All requests together carry the whole list, in order. */
  lemma {:induction false} ChunksPartition(streams: seq<string>, chunkSize: nat)
    requires 0 < chunkSize
    ensures Flatten(Chunks(streams, chunkSize, ChunkCount(|streams|, chunkSize))) == streams
  {
    CountBounds(|streams|, chunkSize);
    ChunksFlatten(streams, chunkSize, ChunkCount(|streams|, chunkSize));
    assert streams[..|streams|] == streams;
  }

  /** The requests of the first n chunks, with consecutive ids. */
  function Requests(operation: string, streams: seq<string>, chunkSize: nat, firstId: int, n: nat): (r: seq<Request>)
    ensures |r| == n
    ensures forall k :: 0 <= k < n ==> r[k] == Request(operation, ChunkAt(streams, chunkSize, k), firstId + k)
  {
    seq(n, k requires 0 <= k < n => Request(operation, ChunkAt(streams, chunkSize, k), firstId + k))
  }

  /** The streams named by the requests, one request after the other. */
  function Asked(requests: seq<Request>): seq<string> {
    if requests == [] then [] else Asked(requests[..|requests|-1]) + requests[|requests|-1].params
  }

  lemma {:induction false} RequestsAsk(operation: string, streams: seq<string>, chunkSize: nat, firstId: int, n: nat)
    ensures Asked(Requests(operation, streams, chunkSize, firstId, n)) == Flatten(Chunks(streams, chunkSize, n))
  {
    hide ChunkAt;
    if n > 0 {
      RequestsAsk(operation, streams, chunkSize, firstId, n - 1);
      assert Requests(operation, streams, chunkSize, firstId, n)[..n-1]
             == Requests(operation, streams, chunkSize, firstId, n - 1);
      assert Chunks(streams, chunkSize, n)[..n-1] == Chunks(streams, chunkSize, n - 1);
    }
  }

  function IdRange(first: int, n: nat): (r: set<int>)
    ensures forall x :: x in r <==> first <= x < first + n
  {
    if n == 0 then {} else IdRange(first, n - 1) + {first + n - 1}
  }

  /** The number of requests the loop sends, where it stops. */
  function SentCount(streams: seq<string>, chunkSize: nat): nat
    requires 0 < chunkSize || streams == []
  {
    if streams == [] then 0 else ChunkCount(|streams|, chunkSize)
  }

  lemma SentCountStops(streams: seq<string>, chunkSize: nat, n: nat)
    requires 0 < chunkSize || streams == []
    ensures n <= SentCount(streams, chunkSize) ==>
              (n < SentCount(streams, chunkSize) <==> Continues(streams, chunkSize, n))
    ensures 0 < chunkSize ==> SentCount(streams, chunkSize) == ChunkCount(|streams|, chunkSize)
  {
    if streams == [] {
      if 0 < chunkSize {
        CountBounds(0, chunkSize);
        if ChunkCount(0, chunkSize) >= 1 {
          MulMonotone(1, ChunkCount(0, chunkSize), chunkSize);
        }
      }
    } else {
      LoopRunsCount(streams, chunkSize, n);
    }
  }

  /** The slice taken by the loop body at i == n * chunkSize. */
  lemma NextChunk(operation: string, streams: seq<string>, chunkSize: nat, first: int, n: nat)
    requires n * chunkSize < |streams|
    ensures (n + 1) * chunkSize == n * chunkSize + chunkSize
    ensures streams[n * chunkSize..Min(|streams|, n * chunkSize + chunkSize)] == ChunkAt(streams, chunkSize, n)
    ensures Requests(operation, streams, chunkSize, first, n + 1)
            == Requests(operation, streams, chunkSize, first, n)
                + [Request(operation, ChunkAt(streams, chunkSize, n), first + n)]
  {}
}
