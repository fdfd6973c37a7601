/** All interleavings of the streams client's requests, whatever their operation, and of the replies to them. */
module StreamsClientRuns {
  import opened Wrappers
  import opened Chunking
  import opened StreamsClients

  /** The client, the ids written but not yet inserted, and what has happened: the ids answered, and those of them
      answered in flight. */
  datatype World = World(client: Client, inFlight: set<int>, answered: set<int>, missed: set<int>)

  const START := World(Client({}, 1, []), {}, {}, {})

  /** As in the program, no lock joins the write of a request and the insertion of its id. */
  datatype Event =
    | WriteRequest(operation: string, params: seq<string>)
    | InsertPending(id: int)
    | Receive(m: Reply)

  function SentIds(w: World): set<int> {
    set k | 0 <= k < |w.client.wire| :: w.client.wire[k].id
  }

  predicate Answers(m: Reply) {
    m.Reply? && m.id.Some?
  }

  /** The exchange answers only written requests, each once, with or without an error. */
  ghost predicate Enabled(w: World, e: Event) {
    match e
    case WriteRequest(_, _) => true
    case InsertPending(id) => id in w.inFlight
    case Receive(m) => Answers(m) ==> m.id.value in SentIds(w) && m.id.value !in w.answered
  }

  function Apply(w: World, e: Event): World {
    match e
    case WriteRequest(operation, params) =>
      var c := w.client;
      w.(client := c.(nextId := c.nextId + 1, wire := c.wire + [Request(operation, params, c.nextId)]),
          inFlight := w.inFlight + {c.nextId})
    case InsertPending(id) => w.(client := w.client.(pending := w.client.pending + {id}), inFlight := w.inFlight - {id})
    case Receive(m) =>
      w.(client := Answered(w.client, m),
         answered := if Answers(m) then w.answered + {m.id.value} else w.answered,
         missed := if Answers(m) && m.id.value !in w.client.pending then w.missed + {m.id.value} else w.missed)
  }

  function Final(w: World, events: seq<Event>): World {
    if events == [] then w else Apply(Final(w, events[..|events|-1]), events[|events|-1])
  }

  ghost predicate CanRun(w: World, events: seq<Event>) {
    events != [] ==> CanRun(w, events[..|events|-1]) && Enabled(Final(w, events[..|events|-1]), events[|events|-1])
  }

  ghost predicate IsId(c: Client, id: int) {
    1 <= id <= |c.wire|
  }

  /** Ids are numbered from 1 in sending order; one that was sent is in flight, or pending if unanswered or answered
      in flight. */
  ghost predicate Invariant(w: World) {
    && w.client.nextId == |w.client.wire| + 1 && (forall k :: 0 <= k < |w.client.wire| ==> w.client.wire[k].id == k + 1)
    && (forall id :: id in w.inFlight || id in w.answered ==> IsId(w.client, id))
    && w.missed <= w.answered
    && (forall id :: id in w.client.pending <==>
          IsId(w.client, id) && id !in w.inFlight && (id in w.answered ==> id in w.missed))
    && (forall id :: id in w.inFlight && id in w.answered ==> id in w.missed)
  }

  lemma SentIdsAre(w: World, id: int)
    requires Invariant(w)
    ensures id in SentIds(w) <==> IsId(w.client, id)
  {
    if IsId(w.client, id) {
      assert w.client.wire[id-1].id == id;
    }
  }

  lemma {:induction false} ReceiveKeepsInvariant(w: World, m: Reply)
    requires Invariant(w) && Enabled(w, Receive(m))
    ensures Invariant(Apply(w, Receive(m)))
  {
    if Answers(m) {
      SentIdsAre(w, m.id.value);
    }
  }

  lemma {:induction false} EveryRunKeepsInvariant(events: seq<Event>)
    requires CanRun(START, events)
    ensures Invariant(Final(START, events))
  {
    if events != [] {
      var w := Final(START, events[..|events|-1]);
      EveryRunKeepsInvariant(events[..|events|-1]);
      match events[|events|-1]
      case Receive(m) => ReceiveKeepsInvariant(w, m);
      case _ =>
    }
  }

  /** Over every run no id is used twice, under whatever operation, and ids grow by one. */
  lemma {:induction false} IdsAreUnique(events: seq<Event>)
    requires CanRun(START, events)
    ensures var wire := Final(START, events).client.wire;
            forall j, k :: 0 <= j < k < |wire| ==> wire[k].id - wire[j].id == k - j
  {
    EveryRunKeepsInvariant(events);
  }

  /** Over every run: pending is what was sent, inserted and not answered, plus what was answered between its write
      and its insertion. It is exactly sent minus answered, errors included, if and only if none of the inserted ids
      was answered before. */
  lemma {:induction false} PendingIsUnansweredIff(events: seq<Event>)
    requires CanRun(START, events)
    ensures var w := Final(START, events);
            && w.client.pending == (SentIds(w) - w.inFlight - w.answered) + (w.missed - w.inFlight)
            && (w.client.pending == SentIds(w) - w.inFlight - w.answered <==> w.missed <= w.inFlight)
  {
    EveryRunKeepsInvariant(events);
    var w := Final(START, events);
    forall id ensures id in SentIds(w) <==> IsId(w.client, id) {
      SentIdsAre(w, id);
    }
    forall id
      ensures id in w.client.pending <==> id in (SentIds(w) - w.inFlight - w.answered) + (w.missed - w.inFlight)
    {
      assert id in w.missed ==> id in w.answered && IsId(w.client, id);
    }
    if id :| id in w.missed && id !in w.inFlight {
      assert id in w.client.pending && id in w.answered;
    }
  }

  // ----- The methods are runs -----

  function RequestEvents(operation: string, streams: seq<string>, chunkSize: nat, first: int, n: nat): (r: seq<Event>)
    ensures |r| == 2 * n
  {
    if n == 0 then []
    else
      RequestEvents(operation, streams, chunkSize, first, n - 1)
      + [WriteRequest(operation, ChunkAt(streams, chunkSize, n - 1)), InsertPending(first + n - 1)]
  }

  /** The client after the first n requests of a chunked request. */
  function SentSoFar(c: Client, operation: string, streams: seq<string>, chunkSize: nat, n: nat): Client {
    Client(c.pending + IdRange(c.nextId, n), c.nextId + n,
           c.wire + Requests(operation, streams, chunkSize, c.nextId, n))
  }

  lemma OneMore(w: World, events: seq<Event>, e: Event)
    ensures Final(w, events + [e]) == Apply(Final(w, events), e)
    ensures CanRun(w, events + [e]) <==> CanRun(w, events) && Enabled(Final(w, events), e)
  {}

  lemma NothingSent(w: World, operation: string, streams: seq<string>, chunkSize: nat)
    ensures w.(client := SentSoFar(w.client, operation, streams, chunkSize, 0)) == w
  {}

  lemma OneRequest(w: World, operation: string, streams: seq<string>, chunkSize: nat, n: nat)
    requires w.client.nextId + n !in w.inFlight
    ensures var now := w.(client := SentSoFar(w.client, operation, streams, chunkSize, n));
            var write := WriteRequest(operation, ChunkAt(streams, chunkSize, n));
            var insert := InsertPending(w.client.nextId + n);
            && Enabled(now, write) && Enabled(Apply(now, write), insert)
            && Apply(Apply(now, write), insert)
               == w.(client := SentSoFar(w.client, operation, streams, chunkSize, n + 1))
  {
    assert w.inFlight + {w.client.nextId + n} - {w.client.nextId + n} == w.inFlight;
  }

  lemma {:induction false} RequestEventsRun(w: World, operation: string, streams: seq<string>, chunkSize: nat, n: nat)
    requires forall id :: id in w.inFlight ==> id < w.client.nextId
    ensures CanRun(w, RequestEvents(operation, streams, chunkSize, w.client.nextId, n))
    ensures Final(w, RequestEvents(operation, streams, chunkSize, w.client.nextId, n))
            == w.(client := SentSoFar(w.client, operation, streams, chunkSize, n))
  {
    hide SentSoFar, Apply, ChunkAt;
    if n == 0 {
      NothingSent(w, operation, streams, chunkSize);
    } else {
      var init := RequestEvents(operation, streams, chunkSize, w.client.nextId, n - 1);
      var write := WriteRequest(operation, ChunkAt(streams, chunkSize, n - 1));
      var insert := InsertPending(w.client.nextId + n - 1);
      RequestEventsRun(w, operation, streams, chunkSize, n - 1);
      OneRequest(w, operation, streams, chunkSize, n - 1);
      OneMore(w, init, write);
      OneMore(w, init + [write], insert);
      assert init + [write] + [insert] == init + [write, insert];
    }
  }

  /** From every reachable state a chunked request is the run of its writes and insertions. */
  lemma {:induction false} ChunkedRequestIsRun(before: seq<Event>, operation: string, streams: seq<string>,
      chunkSize: nat)
    requires CanRun(START, before) && (0 < chunkSize || streams == [])
    ensures var w := Final(START, before);
            var events := RequestEvents(operation, streams, chunkSize, w.client.nextId, SentCount(streams, chunkSize));
            CanRun(w, events) && Final(w, events) == w.(client := Requested(w.client, operation, streams, chunkSize))
  {
    EveryRunKeepsInvariant(before);
    var w := Final(START, before);
    forall id | id in w.inFlight ensures id < w.client.nextId {
      assert IsId(w.client, id);
    }
    RequestEventsRun(w, operation, streams, chunkSize, SentCount(streams, chunkSize));
  }

  /** The three steps that leave an answered request pending. */
  lemma AnswerMissed() returns (events: seq<Event>)
    ensures CanRun(START, events)
    ensures var w := Final(START, events);
            w.client.pending == {1} && w.answered == {1} && SentIds(w) == {1} && w.inFlight == {}
  {
    var e0 := WriteRequest("SUBSCRIBE", ["btcusdt@bookTicker"]);
    var e1, e2 := Receive(Reply(Some(1), false)), InsertPending(1);
    OneMore(START, [], e0);
    assert [] + [e0] == [e0] && [e0] + [e1] == [e0, e1] && [e0, e1] + [e2] == [e0, e1, e2];
    assert Final(START, [e0]).client.wire[0].id == 1;
    OneMore(START, [e0], e1);
    OneMore(START, [e0, e1], e2);
    events := [e0, e1, e2];
  }
}
