/** The streams client: chunked requests without a cut, whose ids are returned and retired on any reply. */
module StreamsClients {
  import opened Wrappers
  import opened Chunking

  /** A received payload: whether it carries an error does not matter for the id it answers. */
  datatype Reply = Malformed | Reply(id: Option<int>, isError: bool)

  /** pendingRequests_, nextRequestId_ and the requests written so far. */
  datatype Client = Client(pending: set<int>, nextId: int, wire: seq<Request>)

  /** The client after a chunked request. */
  function Requested(c: Client, operation: string, streams: seq<string>, chunkSize: nat): Client
    requires 0 < chunkSize || streams == []
  {
    var n := SentCount(streams, chunkSize);
    Client(c.pending + IdRange(c.nextId, n), c.nextId + n,
           c.wire + Requests(operation, streams, chunkSize, c.nextId, n))
  }

  /** The client after a received payload. */
  function Answered(c: Client, m: Reply): Client {
    if m.Reply? && m.id.Some? then c.(pending := c.pending - {m.id.value}) else c
  }

  class StreamsClient {
    const maxStreamsSubs: nat
    var pendingRequests: set<int>
    var nextRequestId: int
    var wire: seq<Request>

    ghost function State(): Client
      reads this
    {
      Client(pendingRequests, nextRequestId, wire)
    }

    constructor (maxStreamsSubs: nat)
      ensures this.maxStreamsSubs == maxStreamsSubs && State() == Client({}, 1, [])
    {
      this.maxStreamsSubs := maxStreamsSubs;
      pendingRequests, nextRequestId, wire := {}, 1, [];
    }

    method SendChunkedRequest(operation: string, streamsNames: seq<string>) returns (ids: seq<int>)
      requires 0 < maxStreamsSubs / 4 || streamsNames == []
      modifies this
      ensures State() == Requested(old(State()), operation, streamsNames, maxStreamsSubs / 4)
      ensures |ids| == SentCount(streamsNames, maxStreamsSubs / 4)
      ensures forall k :: 0 <= k < |ids| ==> ids[k] == old(nextRequestId) + k
    {
      ids := [];
      var chunkSize := maxStreamsSubs / 4;
      ghost var first := nextRequestId;
      hide SentCount, Requests;
      var i := 0;
      ghost var n := 0;
      while i < |streamsNames|
        invariant 0 <= n <= SentCount(streamsNames, chunkSize) && i == n * chunkSize
        invariant nextRequestId == first + n && |ids| == n && forall k :: 0 <= k < n ==> ids[k] == first + k
        invariant wire == old(wire) + Requests(operation, streamsNames, chunkSize, first, n)
        invariant pendingRequests == old(pendingRequests) + IdRange(first, n)
        decreases SentCount(streamsNames, chunkSize) - n
      {
        SentCountStops(streamsNames, chunkSize, n);
        NextChunk(operation, streamsNames, chunkSize, first, n);
        var chunk := streamsNames[i..Min(|streamsNames|, i + chunkSize)];
        var requestId := nextRequestId;
        nextRequestId := nextRequestId + 1;
        wire := wire + [Request(operation, chunk, requestId)];
        pendingRequests := pendingRequests + {requestId};
        ids := ids + [requestId];
        i := i + chunkSize;
        n := n + 1;
      }
      SentCountStops(streamsNames, chunkSize, n);
    }

    method SubscribeToStreams(streamsNames: seq<string>) returns (ids: seq<int>)
      requires 0 < maxStreamsSubs / 4 || streamsNames == []
      modifies this
      ensures State() == Requested(old(State()), "SUBSCRIBE", streamsNames, maxStreamsSubs / 4)
      ensures |ids| == SentCount(streamsNames, maxStreamsSubs / 4)
      ensures forall k :: 0 <= k < |ids| ==> ids[k] == old(nextRequestId) + k
    {
      ids := SendChunkedRequest("SUBSCRIBE", streamsNames);
    }

    method UnsubscribeToStreams(streamsNames: seq<string>) returns (ids: seq<int>)
      requires 0 < maxStreamsSubs / 4 || streamsNames == []
      modifies this
      ensures State() == Requested(old(State()), "UNSUBSCRIBE", streamsNames, maxStreamsSubs / 4)
      ensures |ids| == SentCount(streamsNames, maxStreamsSubs / 4)
      ensures forall k :: 0 <= k < |ids| ==> ids[k] == old(nextRequestId) + k
    {
      ids := SendChunkedRequest("UNSUBSCRIBE", streamsNames);
    }

    /** Any reply, error or not, retires its id. */
    method OnMessage(m: Reply)
      modifies `pendingRequests
      ensures State() == Answered(old(State()), m)
    {
      if m.Reply? && m.id.Some? && m.id.value in pendingRequests {
        pendingRequests := pendingRequests - {m.id.value};
      }
    }
  }

  /** What a chunked request puts on the wire is the whole list, in order, and it returns one id per request. */
  lemma ChunkedRequestPartition(operation: string, streamsNames: seq<string>, chunkSize: nat, first: int)
    requires 0 < chunkSize
    ensures var sent := Requests(operation, streamsNames, chunkSize, first, SentCount(streamsNames, chunkSize));
            && |sent| == ChunkCount(|streamsNames|, chunkSize)
            && Flatten(Chunks(streamsNames, chunkSize, |sent|)) == streamsNames && Asked(sent) == streamsNames
            && (forall k :: 0 <= k < |sent| ==> sent[k].params == Chunks(streamsNames, chunkSize, |sent|)[k]
                                                && sent[k].operation == operation && 1 <= |sent[k].params| <= chunkSize)
            && (forall j, k :: 0 <= j < k < |sent| ==> sent[j].id < sent[k].id)
  {
    SentCountStops(streamsNames, chunkSize, 0);
    ChunksPartition(streamsNames, chunkSize);
    RequestsAsk(operation, streamsNames, chunkSize, first, SentCount(streamsNames, chunkSize));
    var sent := Requests(operation, streamsNames, chunkSize, first, SentCount(streamsNames, chunkSize));
    forall k | 0 <= k < |sent| ensures 1 <= |sent[k].params| <= chunkSize {
      ChunkSizes(streamsNames, chunkSize, k);
    }
  }
}
