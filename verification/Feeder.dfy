/** The market data feeder: chunked subscription, request ids, and the queue of received frames. */
module Feeders {
  import opened Wrappers
  import opened Market
  import opened Chunking

  type Frame = BookTicker

  /** A received payload, parsed. A payload whose parsing throws is Malformed; frame is what parseData makes of it, if
      it does not throw. */
  datatype FeedMessage = Malformed | Parsed(isError: bool, id: Option<int>, frame: Option<Frame>)

  /** pending_requests_, next_request_id_, subscription_list_, update_queue_, frunning_, and the requests written so
      far. */
  datatype Feed = Feed(pending: set<int>, nextId: int, subscriptions: seq<string>, queue: seq<Frame>, running: bool,
      wire: seq<Request>)

  /** c in lower case: c itself unless it is a capital letter, which becomes the letter 32 codes above it. */
  predicate LowerCaseOf(l: char, c: char) {
    !('A' <= l <= 'Z') && (if 'A' <= c <= 'Z' then l as int == c as int + 32 else l == c)
  }

  /** ::tolower in the C locale. */
  function Lower(s: string): (r: string)
    ensures |r| == |s| && forall i :: 0 <= i < |s| ==> LowerCaseOf(r[i], s[i])
  {
    seq(|s|, i requires 0 <= i < |s| => if 'A' <= s[i] <= 'Z' then s[i] - 'A' + 'a' else s[i])
  }

  /** How many symbols are taken: the counter stops the loop when it equals the maximum, which a maximum of 0 never
      does. */
  function Cut(size: nat, max: nat): nat {
    if 0 < max < size then max else size
  }

  function Streams(symbols: seq<string>, streamName: string, n: nat): (r: seq<string>)
    requires n <= |symbols|
    ensures |r| == n && forall i :: 0 <= i < n ==> r[i] == Lower(symbols[i]) + "@" + streamName
  {
    seq(n, i requires 0 <= i < n => Lower(symbols[i]) + "@" + streamName)
  }

  function StreamList(symbols: seq<string>, streamName: string, max: nat): seq<string> {
    Streams(symbols, streamName, Cut(|symbols|, max))
  }

  /** The subscription loop stops. */
  predicate Subscribable(symbols: seq<string>, max: nat) {
    0 < max / 4 || symbols == []
  }

  lemma SubscribableIff(symbols: seq<string>, streamName: string, max: nat)
    ensures Subscribable(symbols, max) <==>
              exists n: nat :: !Continues(StreamList(symbols, streamName, max), max / 4, n)
    ensures Subscribable(symbols, max) <==> 4 <= max || symbols == []
  {
    LoopStopsIff(StreamList(symbols, streamName, max), max / 4);
    assert |StreamList(symbols, streamName, max)| == Cut(|symbols|, max);
  }

  /** The feeder after a subscription. */
  function Subscribed(f: Feed, symbols: seq<string>, streamName: string, max: nat): Feed
    requires Subscribable(symbols, max)
  {
    var streams := StreamList(symbols, streamName, max);
    var n := SentCount(streams, max / 4);
    f.(subscriptions := symbols,
       nextId := f.nextId + n,
       pending := f.pending + IdRange(f.nextId, n),
       wire := f.wire + Requests("SUBSCRIBE", streams, max / 4, f.nextId, n))
  }

  /** The feeder after a received payload. */
  function Received(f: Feed, m: FeedMessage): Feed {
    if m.Malformed? || m.isError then f
    else if m.id.Some? && m.id.value in f.pending then f.(pending := f.pending - {m.id.value})
    else if m.frame.Some? then f.(queue := f.queue + [m.frame.value])
    else f
  }

  class Feeder {
    const maxStreamsSubs: nat
    const streamName: string
    const wsPersistConnection: bool
    var pendingRequests: set<int>
    var nextRequestId: int
    var subscriptionList: seq<string>
    var updateQueue: seq<Frame>
    var running: bool
    var wire: seq<Request>

    ghost function State(): Feed
      reads this
    {
      Feed(pendingRequests, nextRequestId, subscriptionList, updateQueue, running, wire)
    }

    constructor (maxStreamsSubs: nat, streamName: string, wsPersistConnection: bool)
      ensures State() == Feed({}, 1, [], [], false, [])
      ensures this.maxStreamsSubs == maxStreamsSubs && this.streamName == streamName
              && this.wsPersistConnection == wsPersistConnection
    {
      this.maxStreamsSubs, this.streamName, this.wsPersistConnection := maxStreamsSubs, streamName, wsPersistConnection;
      pendingRequests, nextRequestId, subscriptionList, updateQueue, running, wire := {}, 1, [], [], false, [];
    }

    /** The first loop: lower-cased stream names, cut at the maximum. */
    method BuildStreams(symbols: seq<string>) returns (streams: seq<string>, currentSize: nat)
      ensures streams == StreamList(symbols, streamName, maxStreamsSubs) && currentSize == |streams|
    {
      streams, currentSize := [], 0;
      for i := 0 to |symbols|
        invariant currentSize == i && (0 < maxStreamsSubs ==> i < maxStreamsSubs)
        invariant streams == Streams(symbols, streamName, i)
      {
        streams := streams + [Lower(symbols[i]) + "@" + streamName];
        currentSize := currentSize + 1;
        if currentSize == maxStreamsSubs {
          break;
        }
      }
    }

    /** Subscribes to the symbols, up to the maximum, and returns how many streams were asked for. */
    method SubscribeToTickers(symbols: seq<string>) returns (count: nat)
      requires Subscribable(symbols, maxStreamsSubs)
      modifies this
      ensures State() == Subscribed(old(State()), symbols, streamName, maxStreamsSubs)
      ensures count == Cut(|symbols|, maxStreamsSubs)
    {
      subscriptionList := symbols;
      var streams;
      streams, count := BuildStreams(symbols);
      SendChunks(streams);
    }

    /** The second loop: one request per chunk. */
    method SendChunks(streams: seq<string>)
      requires 0 < maxStreamsSubs / 4 || streams == []
      modifies `pendingRequests, `nextRequestId, `wire
      ensures var n := SentCount(streams, maxStreamsSubs / 4);
              && nextRequestId == old(nextRequestId) + n
              && pendingRequests == old(pendingRequests) + IdRange(old(nextRequestId), n)
              && wire == old(wire) + Requests("SUBSCRIBE", streams, maxStreamsSubs / 4, old(nextRequestId), n)
    {
      var chunkSize := maxStreamsSubs / 4;
      ghost var first := nextRequestId;
      hide SentCount, Requests;
      var i := 0;
      ghost var n := 0;
      while i < |streams|
        invariant 0 <= n <= SentCount(streams, chunkSize) && i == n * chunkSize
        invariant nextRequestId == first + n
        invariant wire == old(wire) + Requests("SUBSCRIBE", streams, chunkSize, first, n)
        invariant pendingRequests == old(pendingRequests) + IdRange(first, n)
        decreases SentCount(streams, chunkSize) - n
      {
        SentCountStops(streams, chunkSize, n);
        NextChunk("SUBSCRIBE", streams, chunkSize, first, n);
        var chunk := streams[i..Min(|streams|, i + chunkSize)];
        var requestId := nextRequestId;
        nextRequestId := nextRequestId + 1;
        wire := wire + [Request("SUBSCRIBE", chunk, requestId)];
        pendingRequests := pendingRequests + {requestId};
        i := i + chunkSize;
        n := n + 1;
      }
      SentCountStops(streams, chunkSize, n);
    }

    method OnMessage(m: FeedMessage)
      modifies this
      ensures State() == Received(old(State()), m)
    {
      if m.Malformed? || m.isError {
        return;
      }
      if m.id.Some? && m.id.value in pendingRequests {
        pendingRequests := pendingRequests - {m.id.value};
        return;
      }
      if m.frame.Some? {
        updateQueue := updateQueue + [m.frame.value];
      }
    }

    /** Past the wait: the front of the queue, or nothing when the feeder has stopped and the queue is empty. */
    method GetUpdate() returns (frame: Option<Frame>)
      requires updateQueue != [] || !running
      modifies `updateQueue
      ensures frame.None? <==> !running && old(updateQueue) == []
      ensures old(updateQueue) == (if frame.Some? then [frame.value] else []) + updateQueue
    {
      if !running && updateQueue == [] {
        return None;
      }
      frame := Some(updateQueue[0]);
      updateQueue := updateQueue[1..];
    }

    method Start()
      modifies `running
      ensures running
    {
      running := true;
    }

    method Stop()
      modifies `running
      ensures !running
    {
      if running {
        running := false;
      }
    }

    /** onClose and onFail: a persistent connection is restarted and asks again for the last list of symbols. */
    method OnConnectionLost()
      requires wsPersistConnection ==> Subscribable(subscriptionList, maxStreamsSubs)
      modifies this
      ensures State()
              == if wsPersistConnection
                 then Subscribed(old(State()).(running := true), old(subscriptionList), streamName, maxStreamsSubs)
                 else old(State())
    {
      if wsPersistConnection {
        Stop();
        Start();
        var _ := SubscribeToTickers(subscriptionList);
      }
    }
  }

  /** What one subscription puts on the wire: between one and max/4 streams per request, together exactly the first
      min(n, max) symbols' streams in order. */
  lemma {:induction false} SubscriptionPartition(f: Feed, symbols: seq<string>, streamName: string, max: nat)
    requires 4 <= max
    ensures var streams, count := StreamList(symbols, streamName, max), Min(|symbols|, max);
            var sent := Subscribed(f, symbols, streamName, max).wire[|f.wire|..];
            && |streams| == count && |sent| == ChunkCount(count, max / 4)
            && Flatten(Chunks(streams, max / 4, |sent|)) == streams
            && (forall k :: 0 <= k < |sent| ==> sent[k].params == Chunks(streams, max / 4, |sent|)[k]
                                                && sent[k].operation == "SUBSCRIBE"
                                                && 1 <= |sent[k].params| <= max / 4 && sent[k].id == f.nextId + k)
  {
    var streams := StreamList(symbols, streamName, max);
    var sent := Subscribed(f, symbols, streamName, max).wire[|f.wire|..];
    SentCountStops(streams, max / 4, 0);
    ChunksPartition(streams, max / 4);
    assert sent == Requests("SUBSCRIBE", streams, max / 4, f.nextId, ChunkCount(|streams|, max / 4));
    forall k | 0 <= k < |sent| ensures 1 <= |sent[k].params| <= max / 4 {
      ChunkSizes(streams, max / 4, k);
    }
  }

  /** The stream name of a symbol: its characters in lower case, then @ and the kind of stream. */
  ghost predicate NamesStream(param: string, symbol: string, streamName: string) {
    && |param| == |symbol| + 1 + |streamName|
    && (forall j :: 0 <= j < |symbol| ==> LowerCaseOf(param[j], symbol[j]))
    && param[|symbol|] == '@' && param[|symbol| + 1..] == streamName
  }

  /** What a subscription asks for, over all its requests: the streams of the first min(n, max) symbols, in order. */
  lemma {:induction false} SubscriptionAsksFor(f: Feed, symbols: seq<string>, streamName: string, max: nat)
    requires 4 <= max
    ensures var asked := Asked(Subscribed(f, symbols, streamName, max).wire[|f.wire|..]);
            && |asked| == (if |symbols| < max then |symbols| else max)
            && forall i :: 0 <= i < |asked| ==> NamesStream(asked[i], symbols[i], streamName)
  {
    var streams := StreamList(symbols, streamName, max);
    var n := SentCount(streams, max / 4);
    SubscriptionPartition(f, symbols, streamName, max);
    assert Subscribed(f, symbols, streamName, max).wire[|f.wire|..]
           == Requests("SUBSCRIBE", streams, max / 4, f.nextId, n);
    RequestsAsk("SUBSCRIBE", streams, max / 4, f.nextId, n);
    forall i | 0 <= i < |streams| ensures NamesStream(streams[i], symbols[i], streamName) {
      assert streams[i] == Lower(symbols[i]) + "@" + streamName;
      assert streams[i][|symbols[i]| + 1..] == streamName;
    }
  }

  /** Equal, or the one a capital and the other the same letter in lower case. */
  predicate SameLetter(a: char, b: char) {
    a == b || ('A' <= a <= 'Z' && b as int == a as int + 32) || ('A' <= b <= 'Z' && a as int == b as int + 32)
  }

  ghost predicate SameButCase(a: seq<string>, b: seq<string>) {
    && |a| == |b|
    && forall i :: 0 <= i < |a| ==> |a[i]| == |b[i]| && forall j :: 0 <= j < |a[i]| ==> SameLetter(a[i][j], b[i][j])
  }

  /** Lists of symbols that differ only in case send the same requests. */
  lemma {:induction false} CaseDoesNotMatter(f: Feed, a: seq<string>, b: seq<string>, streamName: string, max: nat)
    requires 4 <= max && SameButCase(a, b)
    ensures Subscribed(f, a, streamName, max).wire == Subscribed(f, b, streamName, max).wire
  {
    forall i | 0 <= i < |a| ensures Lower(a[i]) == Lower(b[i]) {
      forall j | 0 <= j < |a[i]| ensures Lower(a[i])[j] == Lower(b[i])[j] {
        assert SameLetter(a[i][j], b[i][j]);
        assert LowerCaseOf(Lower(a[i])[j], a[i][j]) && LowerCaseOf(Lower(b[i])[j], b[i][j]);
      }
    }
    assert StreamList(a, streamName, max) == StreamList(b, streamName, max);
  }

  /** A subscription remembers its list, and subscribing to the remembered list, in whatever state, sends the same
      requests again under the next ids. */
  lemma {:induction false} ResubscriptionAsksAgain(f: Feed, g: Feed, symbols: seq<string>, streamName: string, max: nat)
    requires 4 <= max && g.subscriptions == Subscribed(f, symbols, streamName, max).subscriptions
    ensures g.subscriptions == symbols
    ensures var first := Subscribed(f, symbols, streamName, max).wire[|f.wire|..];
            var again := Subscribed(g, g.subscriptions, streamName, max).wire[|g.wire|..];
            && |again| == |first|
            && forall k :: 0 <= k < |again| ==> again[k] == first[k].(id := g.nextId + k)
  {
    var streams := StreamList(symbols, streamName, max);
    var n := SentCount(streams, max / 4);
    assert Subscribed(f, symbols, streamName, max).wire[|f.wire|..]
           == Requests("SUBSCRIBE", streams, max / 4, f.nextId, n);
    assert Subscribed(g, symbols, streamName, max).wire[|g.wire|..]
           == Requests("SUBSCRIBE", streams, max / 4, g.nextId, n);
  }
}
